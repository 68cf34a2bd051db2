/** RefreshGcdMemoryAttributes of MemoryAttribute.c: it carries the memory types of the MTRRs over to the GCD
    memory space map, layer by layer, the last matching layer winning. */
module MtrrGcd {

  /** Bits of a GCD attribute word: the cache types, write protection, and anything else by its number. */
  datatype Bit = UC | WC | WT | WB | UCE | WP | Other(n: nat)

  type Bits = set<Bit>

  /** EFI_MEMORY_CACHETYPE_MASK. */
  const CACHETYPE_MASK: Bits := {UC, WC, WT, WB, UCE}

  /** EFI_GCD_MEMORY_SPACE_DESCRIPTOR; not present for EfiGcdMemoryTypeNonExistent. */
  datatype Descriptor = Descriptor(base: nat, length: nat, present: bool, attributes: Bits, capabilities: Bits)

  type Map = seq<Descriptor>

  /** A range and the attribute that goes with it. */
  datatype Layer = Layer(base: nat, length: nat, attribute: Bits)

  /** VARIABLE_MTRR. */
  datatype VariableMtrr = VariableMtrr(valid: bool, kind: nat, base: nat, length: nat)

  /** GetMemorySpaceAttributeFromMtrrType. */
  function AttributeOf(kind: nat): Bits {
    if kind == 0 then {UC} else if kind == 1 then {WC} else if kind == 4 then {WT}
    else if kind == 5 then {WP} else if kind == 6 then {WB} else {}
  }

  // ---------------------------------------------------------------- the map

  /** Sorted, without gaps, from address 0 on. */
  ghost predicate Tiles(map_: Map) {
    forall i :: 0 <= i < |map_| ==> TileAt(map_, i)
  }

  ghost predicate TileAt(map_: Map, i: nat)
    requires i < |map_|
  {
    map_[i].length > 0 && map_[i].base == StartOf(map_, i)
  }

  /** Where descriptor i is to begin. */
  function StartOf(map_: Map, i: nat): nat
    requires i <= |map_|
  {
    if i == 0 then 0 else map_[i - 1].base + map_[i - 1].length
  }

  function Total(map_: Map): nat { StartOf(map_, |map_|) }

  predicate In(d: Descriptor, a: nat) { d.base <= a < d.base + d.length }

  lemma {:induction false} Ordered(map_: Map, j: nat, i: nat)
    requires Tiles(map_) && j <= i <= |map_|
    ensures StartOf(map_, j) <= StartOf(map_, i)
    ensures j < i ==> map_[j].base + map_[j].length <= StartOf(map_, i)
    decreases i
  {
    if j < i {
      assert TileAt(map_, i - 1) && TileAt(map_, j);
      Ordered(map_, j, i - 1);
    }
  }

  /** An address lies in one descriptor at most. */
  lemma InOne(map_: Map, i: nat, j: nat, a: nat)
    requires Tiles(map_) && i < |map_| && j < |map_| && In(map_[i], a) && In(map_[j], a)
    ensures i == j
  {
    assert TileAt(map_, i) && TileAt(map_, j);
    if j < i { Ordered(map_, j, i); } else if i < j { Ordered(map_, i, j); }
  }

  /** Every address below the total lies in some descriptor. */
  lemma {:induction false} Find(map_: Map, a: nat, n: nat) returns (i: nat)
    requires Tiles(map_) && n <= |map_| && a < StartOf(map_, n)
    ensures i < n && In(map_[i], a)
    decreases n
  {
    assert TileAt(map_, n - 1);
    if In(map_[n - 1], a) {
      i := n - 1;
    } else {
      i := Find(map_, a, n - 1);
    }
  }

  lemma InTotal(map_: Map, i: nat, a: nat)
    requires Tiles(map_) && i < |map_| && In(map_[i], a)
    ensures a < Total(map_)
  {
    assert TileAt(map_, i);
    Ordered(map_, i, |map_|);
  }

  // ---------------------------------------------------------------- what a layer does

  /** The attributes of a region of descriptor d under attribute t. */
  function Masked(d: Descriptor, t: Bits): Bits { (d.attributes - CACHETYPE_MASK) + d.capabilities * t }

  /** The attributes an address gets from SetGcdMemorySpaceAttributes: a range that reaches beyond the map is
      not set at all. */
  ghost predicate Sets(map_: Map, layer: Layer, a: nat) {
    layer.base <= a < layer.base + layer.length <= Total(map_) && exists i ::
      0 <= i < |map_| && In(map_[i], a) && map_[i].present
  }

  /** now is was with the layer put over it. */
  ghost predicate Layered(map_: Map, layer: Layer, was: nat -> Bits, now: nat -> Bits) {
    forall a: nat {:trigger now(a)} ::
      && (!Sets(map_, layer, a) ==> now(a) == was(a))
      && (forall i {:trigger map_[i]} :: Sets(map_, layer, a) && 0 <= i < |map_| && In(map_[i], a) ==>
         now(a) == Masked(map_[i], layer.attribute))
  }

  /** The last layer of the sequence that sets the address; `none` when no layer does. */
  ghost function LastSet(map_: Map, layers: seq<Layer>, a: nat, none: Bits): Bits {
    if |layers| == 0 then none
    else if Sets(map_, layers[|layers| - 1], a) then layers[|layers| - 1].attribute
    else LastSet(map_, layers[..|layers| - 1], a, none)
  }

  /** The address is set by some layer. */
  ghost predicate SetBy(map_: Map, layers: seq<Layer>, a: nat) {
    exists k :: 0 <= k < |layers| && Sets(map_, layers[k], a)
  }

  /** What a sequence of layers makes of the map: the last one that sets an address decides. */
  ghost predicate LayeredAll(map_: Map, layers: seq<Layer>, was: nat -> Bits, now: nat -> Bits) {
    forall a: nat {:trigger now(a)} ::
      && (!SetBy(map_, layers, a) ==> now(a) == was(a))
      && (forall i {:trigger map_[i]} :: SetBy(map_, layers, a) && 0 <= i < |map_| && In(map_[i], a) ==>
           now(a) == Masked(map_[i], LastSet(map_, layers, a, {})))
  }

  lemma LayeredNext(map_: Map, layers: seq<Layer>, layer: Layer, was: nat -> Bits, mid: nat -> Bits, now: nat -> Bits)
    requires LayeredAll(map_, layers, was, mid) && Layered(map_, layer, mid, now)
    ensures LayeredAll(map_, layers + [layer], was, now)
  {
    var all := layers + [layer];
    assert all[..|all| - 1] == layers && all[|all| - 1] == layer;
    forall a: nat ensures
      && (!SetBy(map_, all, a) ==> now(a) == was(a))
      && (forall i {:trigger map_[i]} :: SetBy(map_, all, a) && 0 <= i < |map_| && In(map_[i], a) ==>
           now(a) == Masked(map_[i], LastSet(map_, all, a, {})))
    {
      assert mid(a) == mid(a);
      if SetBy(map_, layers, a) {
        var k :| 0 <= k < |layers| && Sets(map_, layers[k], a);
        assert Sets(map_, all[k], a);
      }
      if Sets(map_, layer, a) { assert Sets(map_, all[|layers|], a); }
      if SetBy(map_, all, a) && !Sets(map_, layer, a) {
        var k :| 0 <= k < |all| && Sets(map_, all[k], a);
        assert Sets(map_, layers[k], a);
      }
    }
  }

  // ---------------------------------------------------------------- the GCD services

  class Gcd {
    const memorySpaceMap: Map

    /** The attributes of each address as the GCD has them now. */
    var attr: nat -> Bits

    constructor (memorySpaceMap: Map, attr: nat -> Bits)
      ensures this.memorySpaceMap == memorySpaceMap && this.attr == attr
    {
      this.memorySpaceMap, this.attr := memorySpaceMap, attr;
    }

    /** The service of the DXE core. */
    method SetMemorySpaceAttributes(base: nat, length: nat, attributes: Bits)
      modifies this`attr
      ensures forall a: nat {:trigger attr(a)} ::
        attr(a) == if base <= a < base + length then attributes else old(attr)(a)
    {
      var was := attr;
      attr := (a: nat) => if base <= a < base + length then attributes else was(a);
    }

    /** Find the descriptors of the first and the last address; none when the range reaches beyond the map. */
    method SearchGcdMemorySpaces(base: nat, length: nat) returns (found: bool, start: nat, end: nat)
      requires Tiles(memorySpaceMap) && length > 0
      ensures found <==> base + length <= Total(memorySpaceMap)
      ensures found ==>
        start <= end < |memorySpaceMap| && In(memorySpaceMap[start], base) && In(memorySpaceMap[end], base + length - 1)
    {
      start, end := 0, 0;
      var index := 0;
      while index < |memorySpaceMap|
        invariant index <= |memorySpaceMap|
        invariant forall i :: 0 <= i < index ==> !In(memorySpaceMap[i], base + length - 1)
        invariant forall i :: 0 <= i < index && In(memorySpaceMap[i], base) ==> i == start
        invariant start < |memorySpaceMap| || start == 0
      {
        var d := memorySpaceMap[index];
        if base >= d.base && base < d.base + d.length {
          SingleMatch(memorySpaceMap, index, base);
          start := index;
        }
        if base + length - 1 >= d.base && base + length - 1 < d.base + d.length {
          end := index;
          InTotal(memorySpaceMap, index, base + length - 1);
          BeforeLast(memorySpaceMap, index, base, length);
          return true, start, end;
        }
        index := index + 1;
      }
      if base + length <= Total(memorySpaceMap) {
        var i := Find(memorySpaceMap, base + length - 1, |memorySpaceMap|);
      }
      return false, start, end;
    }

    /** Lay an attribute over a range, descriptor by descriptor. */
    method SetGcdMemorySpaceAttributes(layer: Layer) returns (found: bool)
      requires Tiles(memorySpaceMap) && layer.length > 0
      modifies this`attr
      ensures found <==> layer.base + layer.length <= Total(memorySpaceMap)
      ensures Layered(memorySpaceMap, layer, old(attr), attr)
    {
      var start, end;
      found, start, end := SearchGcdMemorySpaces(layer.base, layer.length);
      if !found {
        return;
      }
      var index := start;
      ReachedNone(memorySpaceMap, layer, start, attr);
      while index <= end
        invariant start <= index <= end + 1
        invariant AllReached(memorySpaceMap, layer, index, old(attr), attr)
      {
        Piece(memorySpaceMap, layer, start, end, index);
        var d := memorySpaceMap[index];
        ghost var before := attr;
        if d.present {
          var regionStart := if layer.base >= d.base then layer.base else d.base;
          var regionLength := if layer.base + layer.length - 1 < d.base + d.length
            then layer.base + layer.length - regionStart else d.base + d.length - regionStart;
          SetMemorySpaceAttributes(regionStart, regionLength, Masked(d, layer.attribute));
        }
        AllReachedNext(memorySpaceMap, layer, start, end, index, old(attr), before, attr);
        index := index + 1;
      }
      AllReachedDone(memorySpaceMap, layer, end, old(attr), attr);
    }

    /** Give every descriptor that exists the default type. */
    method SetDefaults(attribute: Bits)
      requires Tiles(memorySpaceMap)
      modifies this`attr
      ensures Defaulted(memorySpaceMap, |memorySpaceMap|, attribute, old(attr), attr)
    {
      var index := 0;
      while index < |memorySpaceMap|
        invariant index <= |memorySpaceMap| && Defaulted(memorySpaceMap, index, attribute, old(attr), attr)
      {
        ghost var before := attr;
        var d := memorySpaceMap[index];
        if d.present {
          SetMemorySpaceAttributes(d.base, d.length, Masked(d, attribute));
        }
        DefaultedNext(memorySpaceMap, index, attribute, old(attr), before, attr);
        index := index + 1;
      }
    }

    /** One of the three loops over the variable MTRRs. */
    method LayVariable(mtrrs: seq<VariableMtrr>, pass: Pass, ghost done: seq<Layer>, ghost was: nat -> Bits)
      requires Tiles(memorySpaceMap) && LayeredAll(memorySpaceMap, done, was, attr)
      requires forall k :: 0 <= k < |mtrrs| && mtrrs[k].valid ==> mtrrs[k].length > 0
      modifies this`attr
      ensures LayeredAll(memorySpaceMap, done + PassLayers(mtrrs, pass), was, attr)
    {
      var index := 0;
      assert done + PassLayers(mtrrs[..0], pass) == done;
      while index < |mtrrs|
        invariant index <= |mtrrs| && LayeredAll(memorySpaceMap, done + PassLayers(mtrrs[..index], pass), was, attr)
      {
        var m := mtrrs[index];
        ghost var layers := done + PassLayers(mtrrs[..index], pass);
        assert mtrrs[..index + 1][..index] == mtrrs[..index];
        if m.valid && Picks(pass, m.kind) {
          ghost var before := attr;
          var layer := Layer(m.base, m.length, AttributeOf(m.kind));
          var found := SetGcdMemorySpaceAttributes(layer);
          LayeredNext(memorySpaceMap, layers, layer, was, before, attr);
          assert done + PassLayers(mtrrs[..index + 1], pass) == layers + [layer];
        } else {
          assert done + PassLayers(mtrrs[..index + 1], pass) == layers;
        }
        index := index + 1;
      }
      assert mtrrs[..|mtrrs|] == mtrrs;
    }

    /** Set the pending run of sub-ranges. */
    method SetRun(regs: seq<seq<nat>>, ghost first: nat, ghost i: nat, layer: Layer, ghost done: seq<Layer>,
                  ghost was: nat -> Bits)
      requires Tiles(memorySpaceMap) && SUBRANGES_TOP <= Total(memorySpaceMap)
      requires RunOk(regs, first, i, layer.attribute, layer.base, layer.length) && first < i
      requires LayeredAll(memorySpaceMap, done + FixedLayers(regs, first), was, attr)
      modifies this`attr
      ensures LayeredAll(memorySpaceMap, done + FixedLayers(regs, i), was, attr)
    {
      ghost var before := attr;
      var found := SetGcdMemorySpaceAttributes(layer);
      MergedRun(memorySpaceMap, done, regs, first, i, layer, was, before, attr);
    }

    /** The eight sub-ranges of one fixed MTRR, given the pending run. */
    method LayRegister(regs: seq<seq<nat>>, index: nat, run: Layer, ghost first: nat, ghost done: seq<Layer>,
                       ghost was: nat -> Bits)
      returns (run': Layer, ghost first': nat)
      requires Tiles(memorySpaceMap) && SUBRANGES_TOP <= Total(memorySpaceMap) && index < 11
      requires RunOk(regs, first, 8 * index, run.attribute, run.base, run.length)
      requires LayeredAll(memorySpaceMap, done + FixedLayers(regs, first), was, attr)
      modifies this`attr
      ensures RunOk(regs, first', 8 * index + 8, run'.attribute, run'.base, run'.length)
      ensures LayeredAll(memorySpaceMap, done + FixedLayers(regs, first'), was, attr)
    {
      run', first' := run, first;
      var subIndex: nat := 0;
      while subIndex < 8
        invariant subIndex <= 8 && RunOk(regs, first', 8 * index + subIndex, run'.attribute, run'.base, run'.length)
        invariant LayeredAll(memorySpaceMap, done + FixedLayers(regs, first'), was, attr)
      {
        run', first' := LaySubRange(regs, index, subIndex, run', first', done, was);
        subIndex := subIndex + 1;
      }
    }

    /** One sub-range: it extends the pending run, or the run is set and a new one begins. */
    method LaySubRange(regs: seq<seq<nat>>, index: nat, subIndex: nat, run: Layer, ghost first: nat,
                       ghost done: seq<Layer>, ghost was: nat -> Bits)
      returns (run': Layer, ghost first': nat)
      requires Tiles(memorySpaceMap) && SUBRANGES_TOP <= Total(memorySpaceMap) && index < 11 && subIndex < 8
      requires RunOk(regs, first, 8 * index + subIndex, run.attribute, run.base, run.length)
      requires LayeredAll(memorySpaceMap, done + FixedLayers(regs, first), was, attr)
      modifies this`attr
      ensures RunOk(regs, first', 8 * index + subIndex + 1, run'.attribute, run'.base, run'.length)
      ensures LayeredAll(memorySpaceMap, done + FixedLayers(regs, first'), was, attr)
    {
      ghost var i := 8 * index + subIndex;
      SubRangeOf(regs, index, subIndex);
      run', first' := run, first;
      var current := AttributeOf(regs[index][subIndex]);
      if run.length == 0 {
        run' := run.(attribute := current);
      } else if current != run.attribute {
        SetRun(regs, first, i, run, done, was);
        first' := i;
        run' := Layer(FixedBase(index) + FixedLength(index) * subIndex, 0, current);
      }
      RunGrows(regs, first', i, run');
      run' := run'.(length := run'.length + FixedLength(index));
    }

    /** The loop over the fixed MTRRs: neighbouring sub-ranges of one type are set in one go. */
    method LayFixed(regs: seq<seq<nat>>, ghost done: seq<Layer>, ghost was: nat -> Bits)
      requires Tiles(memorySpaceMap) && LayeredAll(memorySpaceMap, done, was, attr) && FixedRegisters(regs)
      requires SUBRANGES_TOP <= Total(memorySpaceMap)
      modifies this`attr
      ensures LayeredAll(memorySpaceMap, done + FixedLayers(regs, 88), was, attr)
    {
      var run := Layer(0, 0, {});
      ghost var first: nat := 0;
      assert done + FixedLayers(regs, 0) == done;
      var index: nat := 0;
      while index < 11
        invariant index <= 11 && RunOk(regs, first, 8 * index, run.attribute, run.base, run.length)
        invariant LayeredAll(memorySpaceMap, done + FixedLayers(regs, first), was, attr)
      {
        run, first := LayRegister(regs, index, run, first, done, was);
        index := index + 1;
      }
      SetRun(regs, first, 88, run, done, was);
    }

    /** RefreshGcdMemoryAttributes, given the default type, the variable MTRRs and the fixed MTRRs. */
    method RefreshGcdMemoryAttributes(defaultType: nat, mtrrs: seq<VariableMtrr>, regs: seq<seq<nat>>)
      requires Tiles(memorySpaceMap) && SUBRANGES_TOP <= Total(memorySpaceMap) && FixedRegisters(regs)
      requires forall k :: 0 <= k < |mtrrs| && mtrrs[k].valid ==> mtrrs[k].length > 0
      modifies this`attr
      // by type numbers: which type decides for an address, and what that makes of its attributes
      ensures forall i, a: nat {:trigger In(memorySpaceMap[i], a)} ::
        0 <= i < |memorySpaceMap| && In(memorySpaceMap[i], a) ==>
        if memorySpaceMap[i].present
        then TypedAs(memorySpaceMap[i], Total(memorySpaceMap), defaultType, mtrrs, regs, a, attr(a))
        else attr(a) == old(attr)(a)
      // as the last layer that sets the address
      ensures forall i, a: nat {:trigger In(memorySpaceMap[i], a)} ::
        0 <= i < |memorySpaceMap| && In(memorySpaceMap[i], a) ==>
        attr(a) == if memorySpaceMap[i].present
                   then Masked(memorySpaceMap[i],
                     LastSet(memorySpaceMap, AllLayers(mtrrs, regs), a, AttributeOf(defaultType)))
                   else old(attr)(a)
    {
      SetDefaults(AttributeOf(defaultType));
      ghost var was := attr;
      LayeredNone(memorySpaceMap, attr);
      LayVariable(mtrrs, WriteBack, [], was);
      LayVariable(mtrrs, Others, [] + PassLayers(mtrrs, WriteBack), was);
      LayVariable(mtrrs, Uncacheable, [] + PassLayers(mtrrs, WriteBack) + PassLayers(mtrrs, Others), was);
      LayFixed(regs, [] + PassLayers(mtrrs, WriteBack) + PassLayers(mtrrs, Others)
        + PassLayers(mtrrs, Uncacheable), was);
      Refreshed(memorySpaceMap, AttributeOf(defaultType), AllLayers(mtrrs, regs), old(attr), was, attr);
      forall i, a: nat {:trigger In(memorySpaceMap[i], a)} |
        0 <= i < |memorySpaceMap| && In(memorySpaceMap[i], a) && memorySpaceMap[i].present
        ensures TypedAs(memorySpaceMap[i], Total(memorySpaceMap), defaultType, mtrrs, regs, a, attr(a))
      {
        TypeDecides(memorySpaceMap, defaultType, mtrrs, regs, i, a, attr(a));
      }
    }
  }

  lemma SingleMatch(map_: Map, index: nat, a: nat)
    requires Tiles(map_) && index < |map_| && In(map_[index], a)
    ensures forall i :: 0 <= i < |map_| && In(map_[i], a) ==> i == index
  {
    forall i | 0 <= i < |map_| && In(map_[i], a) ensures i == index { InOne(map_, index, i, a); }
  }

  /** The descriptor of the first address comes no later than that of the last. */
  lemma BeforeLast(map_: Map, end: nat, base: nat, length: nat)
    requires Tiles(map_) && end < |map_| && length > 0 && In(map_[end], base + length - 1)
    ensures exists i :: 0 <= i <= end && In(map_[i], base)
  {
    assert TileAt(map_, end);
    var i := Find(map_, base, end + 1);
  }

  /** After the descriptors before `index` have been dealt with: the part of the range in them is set. */
  ghost predicate Reached(map_: Map, layer: Layer, index: nat, was: nat -> Bits, now: nat -> Bits, a: nat)
    requires index <= |map_|
  {
    if layer.base <= a < layer.base + layer.length && a < StartOf(map_, index)
    then forall i {:trigger map_[i]} :: 0 <= i < |map_| && In(map_[i], a) ==>
      now(a) == if map_[i].present then Masked(map_[i], layer.attribute) else was(a)
    else now(a) == was(a)
  }

  /** The region of one descriptor added to what was reached before. */
  lemma ReachedNext(map_: Map, layer: Layer, start: nat, end: nat, index: nat, was: nat -> Bits, mid: nat -> Bits,
                    now: nat -> Bits, a: nat)
    requires Tiles(map_) && start <= index <= end < |map_| && layer.length > 0
    requires In(map_[start], layer.base) && In(map_[end], layer.base + layer.length - 1)
    requires Reached(map_, layer, index, was, mid, a)
    requires now(a) == if map_[index].present && layer.base <= a < layer.base + layer.length && In(map_[index], a)
                       then Masked(map_[index], layer.attribute) else mid(a)
    ensures Reached(map_, layer, index + 1, was, now, a)
  {
    Piece(map_, layer, start, end, index);
    if In(map_[index], a) {
      forall i | 0 <= i < |map_| && In(map_[i], a) ensures i == index { InOne(map_, index, i, a); }
    }
  }

  ghost predicate AllReached(map_: Map, layer: Layer, index: nat, was: nat -> Bits, now: nat -> Bits)
    requires index <= |map_|
  {
    forall a: nat :: Reached(map_, layer, index, was, now, a)
  }

  lemma ReachedNone(map_: Map, layer: Layer, start: nat, was: nat -> Bits)
    requires Tiles(map_) && start < |map_| && In(map_[start], layer.base)
    ensures AllReached(map_, layer, start, was, was)
  {
    assert TileAt(map_, start);
    forall a: nat ensures Reached(map_, layer, start, was, was, a) {
    }
  }

  lemma AllReachedNext(map_: Map, layer: Layer, start: nat, end: nat, index: nat, was: nat -> Bits, mid: nat -> Bits,
                       now: nat -> Bits)
    requires Tiles(map_) && start <= index <= end < |map_| && layer.length > 0
    requires In(map_[start], layer.base) && In(map_[end], layer.base + layer.length - 1)
    requires AllReached(map_, layer, index, was, mid)
    requires forall a: nat {:trigger now(a)} ::
      now(a) == if map_[index].present && layer.base <= a < layer.base + layer.length && In(map_[index], a)
                then Masked(map_[index], layer.attribute) else mid(a)
    ensures AllReached(map_, layer, index + 1, was, now)
  {
    var next := index + 1;
    forall a: nat ensures Reached(map_, layer, next, was, now, a) {
      assert Reached(map_, layer, index, was, mid, a);
      ReachedNext(map_, layer, start, end, index, was, mid, now, a);
    }
  }

  lemma AllReachedDone(map_: Map, layer: Layer, end: nat, was: nat -> Bits, now: nat -> Bits)
    requires Tiles(map_) && end < |map_| && layer.length > 0 && In(map_[end], layer.base + layer.length - 1)
    requires layer.base + layer.length <= Total(map_) && AllReached(map_, layer, end + 1, was, now)
    ensures Layered(map_, layer, was, now)
  {
    forall a: nat {:trigger now(a)} | true ensures
      && (!Sets(map_, layer, a) ==> now(a) == was(a))
      && (forall i {:trigger map_[i]} :: Sets(map_, layer, a) && 0 <= i < |map_| && In(map_[i], a) ==>
         now(a) == Masked(map_[i], layer.attribute))
    {
      assert Reached(map_, layer, end + 1, was, now, a);
      ReachedAll(map_, layer, end, was, now, a);
    }
  }

  /** When the last descriptor of the range is done the whole layer is. */
  lemma ReachedAll(map_: Map, layer: Layer, end: nat, was: nat -> Bits, now: nat -> Bits, a: nat)
    requires Tiles(map_) && end < |map_| && layer.length > 0 && In(map_[end], layer.base + layer.length - 1)
    requires layer.base + layer.length <= Total(map_) && Reached(map_, layer, end + 1, was, now, a)
    ensures !Sets(map_, layer, a) ==> now(a) == was(a)
    ensures forall i {:trigger map_[i]} :: Sets(map_, layer, a) && 0 <= i < |map_| && In(map_[i], a) ==>
      now(a) == Masked(map_[i], layer.attribute)
  {
    if layer.base <= a < layer.base + layer.length {
      var i := Find(map_, a, |map_|);
      forall j | 0 <= j < |map_| && In(map_[j], a) ensures j == i { InOne(map_, i, j, a); }
    }
  }

  /** The piece of a range in one of its descriptors is what is left of the descriptor within the range. */
  lemma Piece(map_: Map, layer: Layer, start: nat, end: nat, index: nat)
    requires Tiles(map_) && start <= index <= end < |map_| && layer.length > 0
    requires In(map_[start], layer.base) && In(map_[end], layer.base + layer.length - 1)
    ensures TileAt(map_, index) && StartOf(map_, index + 1) == map_[index].base + map_[index].length
    ensures index > start ==> map_[index].base >= layer.base
    ensures index < end ==> map_[index].base + map_[index].length <= layer.base + layer.length
  {
    assert TileAt(map_, index) && TileAt(map_, start) && TileAt(map_, end);
    Ordered(map_, start, index);
    Ordered(map_, index, end);
    if index < end { assert TileAt(map_, index + 1); Ordered(map_, index + 1, end); }
    if start < index { assert TileAt(map_, start + 1); Ordered(map_, start + 1, index); }
  }

  // ---------------------------------------------------------------- the layers

  /** The three loops over the variable MTRRs. */
  datatype Pass = WriteBack | Others | Uncacheable

  predicate Picks(pass: Pass, kind: nat) {
    match pass
    case WriteBack => kind == 6
    case Others => kind != 6 && kind != 0
    case Uncacheable => kind == 0
  }

  function PassLayers(mtrrs: seq<VariableMtrr>, pass: Pass): seq<Layer> {
    if |mtrrs| == 0 then []
    else
      var m := mtrrs[|mtrrs| - 1];
      PassLayers(mtrrs[..|mtrrs| - 1], pass)
      + (if m.valid && Picks(pass, m.kind) then [Layer(m.base, m.length, AttributeOf(m.kind))] else [])
  }

  /** mFixedMtrrTable: eleven registers of eight sub-ranges each. */
  function FixedBase(index: nat): nat {
    if index == 0 then 0 else if index == 1 then 0x80000 else if index == 2 then 0xA0000
    else 0xC0000 + 0x8000 * (index - 3)
  }

  function FixedLength(index: nat): nat { if index == 0 then 0x10000 else if index <= 2 then 0x4000 else 0x1000 }

  const SUBRANGES_TOP: nat := 0x100000

  predicate FixedRegisters(regs: seq<seq<nat>>) {
    |regs| == 11 && forall i {:trigger regs[i]} :: 0 <= i < 11 ==> |regs[i]| == 8
  }

  /** The i-th of the 88 sub-ranges. */
  function SubBase(i: nat): nat { if i >= 88 then SUBRANGES_TOP else FixedBase(i / 8) + FixedLength(i / 8) * (i % 8) }

  function TypeAt(regs: seq<seq<nat>>, i: nat): Bits
    requires FixedRegisters(regs) && i < 88
  {
    AttributeOf(regs[i / 8][i % 8])
  }

  /** The sub-ranges tile the first megabyte. */
  lemma TileNext(i: nat)
    requires i < 88
    ensures SubBase(0) == 0 && SubBase(88) == SUBRANGES_TOP
    ensures SubBase(i + 1) == SubBase(i) + FixedLength(i / 8) && SubBase(i) < SubBase(i + 1) <= SUBRANGES_TOP
  {
  }

  lemma {:induction false} TileOrder(i: nat, j: nat)
    requires i <= j <= 88
    ensures SubBase(i) <= SubBase(j) <= SUBRANGES_TOP && (i < j ==> SubBase(i) < SubBase(j))
    decreases j
  {
    if i < j {
      TileNext(j - 1);
      TileOrder(i, j - 1);
    } else if j < 88 {
      TileNext(j);
    }
  }

  /** The first n sub-ranges, each as a layer of its own. */
  function FixedLayers(regs: seq<seq<nat>>, n: nat): seq<Layer>
    requires FixedRegisters(regs) && n <= 88
  {
    if n == 0 then []
    else FixedLayers(regs, n - 1) + [Layer(SubBase(n - 1), FixedLength((n - 1) / 8), TypeAt(regs, n - 1))]
  }

  /** The layers of the whole refresh in order: WB, other, UC, fixed. */
  function AllLayers(mtrrs: seq<VariableMtrr>, regs: seq<seq<nat>>): seq<Layer>
    requires FixedRegisters(regs)
  {
    [] + PassLayers(mtrrs, WriteBack) + PassLayers(mtrrs, Others) + PassLayers(mtrrs, Uncacheable)
      + FixedLayers(regs, 88)
  }

  /** The pending run of the merging loop: sub-ranges first to i, all of one type. */
  ghost predicate RunOk(regs: seq<seq<nat>>, first: nat, i: nat, attributes: Bits, base: nat, length: nat) {
    && FixedRegisters(regs) && first <= i <= 88 && base == SubBase(first) && base + length == SubBase(i)
    && (length == 0 <==> first == i) && (first == i ==> i == 0)
    && forall j {:trigger TypeAt(regs, j)} :: first <= j < i ==> TypeAt(regs, j) == attributes
  }

  lemma SubRangeOf(regs: seq<seq<nat>>, index: nat, subIndex: nat)
    requires FixedRegisters(regs) && index < 11 && subIndex < 8
    ensures var i := 8 * index + subIndex;
      && i / 8 == index && TypeAt(regs, i) == AttributeOf(regs[index][subIndex])
      && SubBase(i) == FixedBase(index) + FixedLength(index) * subIndex
  {
    assert (8 * index + subIndex) % 8 == subIndex;
  }

  /** A sub-range of the run's type extends it. */
  lemma RunGrows(regs: seq<seq<nat>>, first: nat, i: nat, run: Layer)
    requires FixedRegisters(regs) && first <= i < 88 && run.base == SubBase(first)
      && run.base + run.length == SubBase(i)
    requires run.attribute == TypeAt(regs, i) && forall j {:trigger TypeAt(regs, j)} :: first <= j < i ==>
      TypeAt(regs, j) == run.attribute
    ensures RunOk(regs, first, i + 1, run.attribute, run.base, run.length + FixedLength(i / 8))
  {
    TileNext(i);
    TileOrder(first, i);
  }

  /** All descriptors before `index` have the default type, the rest of the map is untouched. */
  ghost predicate Defaulted(map_: Map, index: nat, attribute: Bits, was: nat -> Bits, now: nat -> Bits) {
    forall a: nat :: DefaultedAt(map_, index, attribute, was, now, a)
  }

  ghost predicate DefaultedAt(map_: Map, index: nat, attribute: Bits, was: nat -> Bits, now: nat -> Bits, a: nat) {
    && (forall i {:trigger map_[i]} :: 0 <= i < |map_| && i < index && In(map_[i], a) ==>
         now(a) == if map_[i].present then Masked(map_[i], attribute) else was(a))
    && ((forall i {:trigger map_[i]} :: 0 <= i < |map_| && i < index ==> !In(map_[i], a)) ==> now(a) == was(a))
  }

  lemma DefaultedNext(map_: Map, index: nat, attribute: Bits, was: nat -> Bits, mid: nat -> Bits, now: nat -> Bits)
    requires Tiles(map_) && index < |map_| && Defaulted(map_, index, attribute, was, mid)
    requires forall a: nat {:trigger now(a)} ::
      now(a) == if map_[index].present && In(map_[index], a) then Masked(map_[index], attribute) else mid(a)
    ensures Defaulted(map_, index + 1, attribute, was, now)
  {
    var next := index + 1;
    forall a: nat ensures DefaultedAt(map_, next, attribute, was, now, a) {
      assert DefaultedAt(map_, index, attribute, was, mid, a);
      if In(map_[index], a) {
        SingleMatch(map_, index, a);
      }
    }
  }

  lemma LayeredNone(map_: Map, was: nat -> Bits)
    ensures LayeredAll(map_, [], was, was)
  {
  }

  /** Setting a run of sub-ranges of one type at once comes to the same as setting them one by one. */
  lemma MergedRun(map_: Map, done: seq<Layer>, regs: seq<seq<nat>>, first: nat, i: nat, layer: Layer, was: nat -> Bits,
                  mid: nat -> Bits, now: nat -> Bits)
    requires Tiles(map_) && SUBRANGES_TOP <= Total(map_)
      && RunOk(regs, first, i, layer.attribute, layer.base, layer.length) && first < i
    requires LayeredAll(map_, done + FixedLayers(regs, first), was, mid) && Layered(map_, layer, mid, now)
    ensures LayeredAll(map_, done + FixedLayers(regs, i), was, now)
  {
    var all := done + FixedLayers(regs, i);
    forall a: nat ensures
      && (!SetBy(map_, all, a) ==> now(a) == was(a))
      && (forall k {:trigger map_[k]} :: SetBy(map_, all, a) && 0 <= k < |map_| && In(map_[k], a) ==>
           now(a) == Masked(map_[k], LastSet(map_, all, a, {})))
    {
      assert mid(a) == mid(a);
      RunAt(map_, done, regs, first, i, layer.attribute, a);
      TileOrder(first, i);
    }
  }

  /** Whether an address belongs to a descriptor that exists. */
  ghost predicate Exists(map_: Map, a: nat) {
    exists i :: 0 <= i < |map_| && In(map_[i], a) && map_[i].present
  }

  lemma {:induction false} RunAt(map_: Map, done: seq<Layer>, regs: seq<seq<nat>>, first: nat, i: nat, attribute: Bits,
                                 a: nat)
    requires FixedRegisters(regs) && first <= i <= 88 && SUBRANGES_TOP <= Total(map_)
    requires forall j {:trigger TypeAt(regs, j)} :: first <= j < i ==> TypeAt(regs, j) == attribute
    ensures var was, now := done + FixedLayers(regs, first), done + FixedLayers(regs, i);
      if SubBase(first) <= a < SubBase(i) && Exists(map_, a) then SetBy(map_, now, a)
        && LastSet(map_, now, a, {}) == attribute
      else SetBy(map_, now, a) == SetBy(map_, was, a) && LastSet(map_, now, a, {}) == LastSet(map_, was, a, {})
    decreases i
  {
    if first < i {
      RunAt(map_, done, regs, first, i - 1, attribute, a);
      TileNext(i - 1);
      TileOrder(first, i - 1);
      var layer := Layer(SubBase(i - 1), FixedLength((i - 1) / 8), TypeAt(regs, i - 1));
      assert done + FixedLayers(regs, i) == (done + FixedLayers(regs, i - 1)) + [layer];
      LastStep(map_, done + FixedLayers(regs, i - 1), layer, a);
    }
  }

  lemma LastStep(map_: Map, layers: seq<Layer>, layer: Layer, a: nat)
    ensures var all := layers + [layer];
      if Sets(map_, layer, a) then SetBy(map_, all, a) && LastSet(map_, all, a, {}) == layer.attribute
      else SetBy(map_, all, a) == SetBy(map_, layers, a) && LastSet(map_, all, a, {}) == LastSet(map_, layers, a, {})
  {
    var all := layers + [layer];
    assert all[..|all| - 1] == layers && all[|layers|] == layer;
    if SetBy(map_, layers, a) {
      var k :| 0 <= k < |layers| && Sets(map_, layers[k], a);
      assert all[k] == layers[k];
    }
    if SetBy(map_, all, a) && !Sets(map_, layer, a) {
      var k :| 0 <= k < |all| && Sets(map_, all[k], a);
      assert all[k] == layers[k];
    }
  }

  /** LastSet answers its default exactly when no layer sets the address. */
  lemma {:induction false} LastSetNone(map_: Map, layers: seq<Layer>, a: nat, none: Bits)
    ensures LastSet(map_, layers, a, none) == if SetBy(map_, layers, a) then LastSet(map_, layers, a, {}) else none
  {
    if |layers| > 0 {
      var front, last := layers[..|layers| - 1], layers[|layers| - 1];
      assert layers == front + [last];
      LastStep(map_, front, last, a);
      LastSetNone(map_, front, a, none);
    }
  }

  lemma Refreshed(map_: Map, attribute: Bits, layers: seq<Layer>, start: nat -> Bits, was: nat -> Bits,
                  now: nat -> Bits)
    requires Tiles(map_) && Defaulted(map_, |map_|, attribute, start, was) && LayeredAll(map_, layers, was, now)
    ensures forall i, a: nat {:trigger In(map_[i], a)} :: 0 <= i < |map_| && In(map_[i], a) ==>
      now(a) == if map_[i].present then Masked(map_[i], LastSet(map_, layers, a, attribute)) else start(a)
  {
    forall i, a: nat {:trigger In(map_[i], a)} | 0 <= i < |map_| && In(map_[i], a)
      ensures now(a) == if map_[i].present then Masked(map_[i], LastSet(map_, layers, a, attribute)) else start(a)
    {
      assert DefaultedAt(map_, |map_|, attribute, start, was, a);
      LastSetNone(map_, layers, a, attribute);
      SingleMatch(map_, i, a);
    }
  }

  // ---------------------------------------------------------------- the layers by type numbers

  /** The MTRR is valid, lies within the map and holds the address. */
  ghost predicate Holds(total: nat, m: VariableMtrr, a: nat) { m.valid && m.base <= a < m.base + m.length <= total }

  /** The type of the fixed sub-range that holds an address below 1MB. */
  ghost function FixedType(regs: seq<seq<nat>>, a: nat): nat
    requires FixedRegisters(regs) && a < 0x10_0000
  {
    if a < 0x8_0000 then regs[0][a / 0x1_0000]
    else if a < 0xA_0000 then regs[1][(a - 0x8_0000) / 0x4000]
    else if a < 0xC_0000 then regs[2][(a - 0xA_0000) / 0x4000]
    else regs[3 + (a - 0xC_0000) / 0x8000][(a - 0xC_0000) / 0x1000 % 8]
  }

  /** An address of descriptor d has been given memory type `kind`. */
  ghost predicate Typed(d: Descriptor, kind: nat, bits: Bits) {
    var kept := d.attributes - {UC, WC, WT, WB, UCE};
    match kind
    case 0 => bits == kept + d.capabilities * {UC}
    case 1 => bits == kept + d.capabilities * {WC}
    case 4 => bits == kept + d.capabilities * {WT}
    case 5 => bits == kept + d.capabilities * {WP}
    case 6 => bits == kept + d.capabilities * {WB}
    case _ => bits == kept
  }

  /** The k-th variable MTRR is the last one that holds the address and is not of type 6. */
  ghost predicate LastHolds(total: nat, mtrrs: seq<VariableMtrr>, a: nat, k: nat) {
    && k < |mtrrs| && Holds(total, mtrrs[k], a) && mtrrs[k].kind != 6
    && forall j {:trigger mtrrs[j]} :: k < j < |mtrrs| && mtrrs[j].kind != 6 ==> !Holds(total, mtrrs[j], a)
  }

  /** Which memory type an address of descriptor d ends up with.  Below 1MB that of its fixed sub-range.  From there on
      type 0 if any variable MTRR that holds it has that, or else the type of the last of them that is not 6, or 6 if
      all are, or the default type if there is none. */
  ghost predicate TypedAs(d: Descriptor, total: nat, defaultType: nat, mtrrs: seq<VariableMtrr>, regs: seq<seq<nat>>,
                          a: nat, bits: Bits)
    requires FixedRegisters(regs)
  {
    if a < 0x10_0000 then Typed(d, FixedType(regs, a), bits)
    else if exists k :: 0 <= k < |mtrrs| && Holds(total, mtrrs[k], a) && mtrrs[k].kind == 0 then Typed(d, 0, bits)
    else if exists k :: 0 <= k < |mtrrs| && Holds(total, mtrrs[k], a) && mtrrs[k].kind != 6 then
      forall k: nat {:trigger LastHolds(total, mtrrs, a, k)} ::
        LastHolds(total, mtrrs, a, k) ==> Typed(d, mtrrs[k].kind, bits)
    else if exists k :: 0 <= k < |mtrrs| && Holds(total, mtrrs[k], a) then Typed(d, 6, bits)
    else Typed(d, defaultType, bits)
  }

  lemma MaskedIsTyped(d: Descriptor, kind: nat)
    ensures Typed(d, kind, Masked(d, AttributeOf(kind)))
  {
  }

  /** Of two sequences of layers the later one goes first. */
  lemma {:induction false} LastOfBoth(map_: Map, front: seq<Layer>, back: seq<Layer>, a: nat, none: Bits)
    ensures LastSet(map_, front + back, a, none) == LastSet(map_, back, a, LastSet(map_, front, a, none))
  {
    if |back| == 0 {
      assert front + back == front;
    } else {
      var all := front + back;
      assert all[..|all| - 1] == front + back[..|back| - 1] && all[|all| - 1] == back[|back| - 1];
      LastOfBoth(map_, front, back[..|back| - 1], a, none);
    }
  }

  /** The k-th variable MTRR is the last one of this pass that holds the address. */
  ghost predicate LastPicked(total: nat, mtrrs: seq<VariableMtrr>, pass: Pass, a: nat, k: nat) {
    && k < |mtrrs| && Holds(total, mtrrs[k], a) && Picks(pass, mtrrs[k].kind)
    && forall j {:trigger mtrrs[j]} :: k < j < |mtrrs| && Picks(pass, mtrrs[j].kind) ==> !Holds(total, mtrrs[j], a)
  }

  ghost predicate Picked(total: nat, mtrrs: seq<VariableMtrr>, pass: Pass, a: nat) {
    exists k {:trigger mtrrs[k]} :: 0 <= k < |mtrrs| && Holds(total, mtrrs[k], a) && Picks(pass, mtrrs[k].kind)
  }

  /** A pass gives an address that exists the type of its last MTRR that holds it. */
  lemma {:induction false} PassGives(map_: Map, mtrrs: seq<VariableMtrr>, pass: Pass, a: nat, none: Bits)
    returns (k: nat)
    requires Exists(map_, a)
    ensures if Picked(Total(map_), mtrrs, pass, a) then
        LastPicked(Total(map_), mtrrs, pass, a, k)
          && LastSet(map_, PassLayers(mtrrs, pass), a, none) == AttributeOf(mtrrs[k].kind)
      else LastSet(map_, PassLayers(mtrrs, pass), a, none) == none
  {
    k := 0;
    if |mtrrs| > 0 {
      var m := mtrrs[|mtrrs| - 1];
      PassMore(map_, mtrrs, pass, a, none);
      if Picks(pass, m.kind) && Holds(Total(map_), m, a) {
        k := |mtrrs| - 1;
        assert LastPicked(Total(map_), mtrrs, pass, a, k);
      } else {
        k := PassGives(map_, mtrrs[..|mtrrs| - 1], pass, a, none);
        PickedFront(Total(map_), mtrrs, pass, a, k);
      }
    }
  }

  lemma PickedFront(total: nat, mtrrs: seq<VariableMtrr>, pass: Pass, a: nat, k: nat)
    requires |mtrrs| > 0 && !(Picks(pass, mtrrs[|mtrrs| - 1].kind) && Holds(total, mtrrs[|mtrrs| - 1], a))
    ensures Picked(total, mtrrs, pass, a) <==> Picked(total, mtrrs[..|mtrrs| - 1], pass, a)
    ensures LastPicked(total, mtrrs[..|mtrrs| - 1], pass, a, k) ==> LastPicked(total, mtrrs, pass, a, k)
  {
    var front := mtrrs[..|mtrrs| - 1];
    if j :| 0 <= j < |mtrrs| && Holds(total, mtrrs[j], a) && Picks(pass, mtrrs[j].kind) {
      assert front[j] == mtrrs[j];
    }
    if j :| 0 <= j < |front| && Holds(total, front[j], a) && Picks(pass, front[j].kind) {
      assert front[j] == mtrrs[j];
    }
    if LastPicked(total, front, pass, a, k) {
      forall j | k < j < |mtrrs| && Picks(pass, mtrrs[j].kind) ensures !Holds(total, mtrrs[j], a) {
        if j < |front| { assert front[j] == mtrrs[j]; }
      }
    }
  }

  lemma PassMore(map_: Map, mtrrs: seq<VariableMtrr>, pass: Pass, a: nat, none: Bits)
    requires Exists(map_, a) && |mtrrs| > 0
    ensures var front, m := mtrrs[..|mtrrs| - 1], mtrrs[|mtrrs| - 1];
      LastSet(map_, PassLayers(mtrrs, pass), a, none)
        == if Picks(pass, m.kind) && Holds(Total(map_), m, a) then AttributeOf(m.kind)
           else LastSet(map_, PassLayers(front, pass), a, none)
  {
    var front, m := mtrrs[..|mtrrs| - 1], mtrrs[|mtrrs| - 1];
    if m.valid && Picks(pass, m.kind) {
      var layer := Layer(m.base, m.length, AttributeOf(m.kind));
      var all := PassLayers(front, pass) + [layer];
      assert all[..|all| - 1] == PassLayers(front, pass) && all[|all| - 1] == layer;
    } else {
      assert PassLayers(front, pass) + [] == PassLayers(front, pass);
    }
  }

  lemma FixedMore(map_: Map, regs: seq<seq<nat>>, n: nat, a: nat, none: Bits)
    requires FixedRegisters(regs) && 0 < n <= 88 && Exists(map_, a) && SUBRANGES_TOP <= Total(map_)
    ensures LastSet(map_, FixedLayers(regs, n), a, none)
         == if SubBase(n - 1) <= a < SubBase(n) then TypeAt(regs, n - 1)
            else LastSet(map_, FixedLayers(regs, n - 1), a, none)
  {
    TileNext(n - 1);
    var front, layer := FixedLayers(regs, n - 1), Layer(SubBase(n - 1), FixedLength((n - 1) / 8), TypeAt(regs, n - 1));
    var all := front + [layer];
    assert all[..|all| - 1] == front && all[|all| - 1] == layer;
  }

  /** The fixed sub-ranges give no address from 1MB on a type. */
  lemma {:induction false} FixedNone(map_: Map, regs: seq<seq<nat>>, n: nat, a: nat, none: Bits)
    requires FixedRegisters(regs) && n <= 88 && Exists(map_, a) && SUBRANGES_TOP <= Total(map_) && a >= SubBase(n)
    ensures LastSet(map_, FixedLayers(regs, n), a, none) == none
  {
    if n > 0 {
      TileNext(n - 1);
      FixedMore(map_, regs, n, a, none);
      FixedNone(map_, regs, n - 1, a, none);
    }
  }

  lemma FixedLast(map_: Map, regs: seq<seq<nat>>, n: nat, a: nat, none: Bits)
    requires FixedRegisters(regs) && 0 < n <= 88 && Exists(map_, a) && SUBRANGES_TOP <= Total(map_)
    requires InSub(n - 1, a)
    ensures LastSet(map_, FixedLayers(regs, n), a, none) == TypeAt(regs, n - 1)
  {
    assert InSubBounds(n - 1, a);
    FixedMore(map_, regs, n, a, none);
  }

  lemma FixedEarlier(map_: Map, regs: seq<seq<nat>>, n: nat, i: nat, a: nat, none: Bits)
    requires FixedRegisters(regs) && 0 < n <= 88 && Exists(map_, a) && SUBRANGES_TOP <= Total(map_)
    requires i < n - 1 && InSub(i, a)
    ensures LastSet(map_, FixedLayers(regs, n), a, none) == LastSet(map_, FixedLayers(regs, n - 1), a, none)
  {
    assert InSubBounds(i, a);
    TileOrder(i + 1, n - 1);
    FixedMore(map_, regs, n, a, none);
  }

  /** And each existing address below the type of its sub-range. */
  lemma {:induction false} FixedGives(map_: Map, regs: seq<seq<nat>>, n: nat, i: nat, a: nat, none: Bits)
    requires FixedRegisters(regs) && i < n <= 88 && Exists(map_, a) && SUBRANGES_TOP <= Total(map_)
    requires InSub(i, a)
    ensures LastSet(map_, FixedLayers(regs, n), a, none) == TypeAt(regs, i)
    decreases n
  {
    if i == n - 1 {
      FixedLast(map_, regs, n, a, none);
    } else {
      FixedEarlier(map_, regs, n, i, a, none);
      FixedGives(map_, regs, n - 1, i, a, none);
    }
  }

  /** Address a is in the i-th sub-range. */
  ghost predicate InSub(i: nat, a: nat) {
    forall j {:trigger InSubBounds(j, a)} :: j == i ==> InSubBounds(j, a)
  }

  ghost predicate InSubBounds(i: nat, a: nat) { SubBase(i) <= a < SubBase(i + 1) }

  /** The sub-range of an address. */
  ghost function SubRange(a: nat): nat {
    if a < 0x8_0000 then a / 0x1_0000
    else if a < 0xA_0000 then 8 + (a - 0x8_0000) / 0x4000
    else if a < 0xC_0000 then 16 + (a - 0xA_0000) / 0x4000
    else 24 + (a - 0xC_0000) / 0x1000
  }

  lemma SubRangeIs(regs: seq<seq<nat>>, a: nat)
    requires FixedRegisters(regs) && a < 0x10_0000
    ensures var i := SubRange(a);
      i < 88 && InSub(i, a) && TypeAt(regs, i) == AttributeOf(FixedType(regs, a))
  {
    var i := SubRange(a);
    TileNext(i);
    if a < 0xC_0000 { LowSubRange(a); } else { HighSubRange((a - 0xC_0000) / 0x1000, a - 0xC_0000); }
    assert SubBase(i) == FixedBase(i / 8) + FixedLength(i / 8) * (i % 8);
  }

  lemma LowSubRange(a: nat)
    requires a < 0xC_0000
    ensures var i := SubRange(a);
      if a < 0x8_0000 then i / 8 == 0 && i % 8 == a / 0x1_0000
      else if a < 0xA_0000 then i / 8 == 1 && i % 8 == (a - 0x8_0000) / 0x4000
      else i / 8 == 2 && i % 8 == (a - 0xA_0000) / 0x4000
  {
  }

  lemma HighSubRange(q: nat, b: nat)
    requires b < 0x4_0000 && q == b / 0x1000
    ensures (24 + q) / 8 == 3 + b / 0x8000 && (24 + q) % 8 == q % 8
    ensures 0x8000 * (b / 0x8000) + 0x1000 * (q % 8) <= b < 0x8000 * (b / 0x8000) + 0x1000 * (q % 8) + 0x1000
  {
    assert b / 0x8000 == q / 8;
  }

  /** The last layer that sets an address, by type numbers. */
  lemma TypeDecides(map_: Map, defaultType: nat, mtrrs: seq<VariableMtrr>, regs: seq<seq<nat>>, i: nat, a: nat,
                    bits: Bits)
    requires Tiles(map_) && SUBRANGES_TOP <= Total(map_) && FixedRegisters(regs)
    requires i < |map_| && In(map_[i], a) && map_[i].present
    requires bits == Masked(map_[i], LastSet(map_, AllLayers(mtrrs, regs), a, AttributeOf(defaultType)))
    ensures TypedAs(map_[i], Total(map_), defaultType, mtrrs, regs, a, bits)
  {
    var none := AttributeOf(defaultType);
    var wb, others, uc := PassLayers(mtrrs, WriteBack), PassLayers(mtrrs, Others), PassLayers(mtrrs, Uncacheable);
    LastOfBoth(map_, [] + wb + others + uc, FixedLayers(regs, 88), a, none);
    assert Exists(map_, a);
    var below := LastSet(map_, [] + wb + others + uc, a, none);
    if a < 0x10_0000 {
      SubRangeIs(regs, a);
      FixedGives(map_, regs, 88, SubRange(a), a, below);
      MaskedIsTyped(map_[i], FixedType(regs, a));
    } else {
      TileNext(0);
      FixedNone(map_, regs, 88, a, below);
      LastOfBoth(map_, [] + wb + others, uc, a, none);
      LastOfBoth(map_, [] + wb, others, a, none);
      assert [] + wb == wb;
      VariableDecides(map_, defaultType, mtrrs, regs, i, a, bits);
    }
  }

  lemma VariableDecides(map_: Map, defaultType: nat, mtrrs: seq<VariableMtrr>, regs: seq<seq<nat>>, i: nat, a: nat,
                        bits: Bits)
    requires FixedRegisters(regs) && i < |map_| && In(map_[i], a) && map_[i].present && a >= 0x10_0000
    requires var wb := LastSet(map_, PassLayers(mtrrs, WriteBack), a, AttributeOf(defaultType));
      var others := LastSet(map_, PassLayers(mtrrs, Others), a, wb);
      bits == Masked(map_[i], LastSet(map_, PassLayers(mtrrs, Uncacheable), a, others))
    ensures TypedAs(map_[i], Total(map_), defaultType, mtrrs, regs, a, bits)
  {
    assert Exists(map_, a);
    var total := Total(map_);
    var wb := LastSet(map_, PassLayers(mtrrs, WriteBack), a, AttributeOf(defaultType));
    var others := LastSet(map_, PassLayers(mtrrs, Others), a, wb);
    var k6 := PassGives(map_, mtrrs, WriteBack, a, AttributeOf(defaultType));
    var k := PassGives(map_, mtrrs, Others, a, wb);
    var k0 := PassGives(map_, mtrrs, Uncacheable, a, others);
    if Picked(total, mtrrs, Uncacheable, a) {
      MaskedIsTyped(map_[i], 0);
    } else if Picked(total, mtrrs, Others, a) {
      forall j: nat | LastHolds(total, mtrrs, a, j) ensures j == k { assert mtrrs[j].kind != 0; }
      MaskedIsTyped(map_[i], mtrrs[k].kind);
    } else if Picked(total, mtrrs, WriteBack, a) {
      MaskedIsTyped(map_[i], 6);
    } else {
      MaskedIsTyped(map_[i], defaultType);
    }
  }
}
