/** FindSmramInfo of PiSmmCpuDxeSmm.c: the largest usable SMRAM range below 4GB, grown by the ranges that adjoin it. */
module SmramMerge {
  import opened Common

  const BASE_1MB: nat := 0x10_0000
  const BASE_4GB: nat := 0x1_0000_0000
  const MIN_SIZE: nat := 0x4_0000 - 0x1000

  /** EFI_SMRAM_DESCRIPTOR; `usable` when it is neither allocated nor needs testing or ECC initialisation. */
  datatype Smram = Smram(start: nat, size: nat, usable: bool) {
    function End(): nat { start + size }
  }

  predicate Eligible(r: Smram) {
    r.usable && BASE_1MB <= r.start && r.End() <= BASE_4GB && MIN_SIZE <= r.size
  }

  predicate Holds(r: Smram, a: nat) { r.start <= a < r.End() }

  /** A UINT32 sum. */
  function Sum32(a: nat, b: nat): nat { (a + b) % BASE_4GB }

  /** A chain of ranges, each starting where the one before ends, leads from address `from` up to `top`. */
  ghost predicate Reaches(ranges: seq<Smram>, from: nat, top: nat)
    decreases top
  {
    top == from || exists i :: 0 <= i < |ranges| && ranges[i].size > 0 && ranges[i].start < BASE_4GB
                               && ranges[i].End() == top && Reaches(ranges, from, ranges[i].start)
  }

  ghost predicate AtZero(ranges: seq<Smram>) {
    exists j :: 0 <= j < |ranges| && ranges[j].start == 0 && ranges[j].size > 0
  }

  /** No chain from the range on goes beyond 4GB, nor up to 4GB while there is a range at address 0. */
  ghost predicate Safe(ranges: seq<Smram>, current: nat)
    requires current < |ranges|
  {
    forall top: nat {:trigger Reaches(ranges, ranges[current].End(), top)} ::
      Reaches(ranges, ranges[current].End(), top) ==> top <= BASE_4GB && !(top == BASE_4GB && AtZero(ranges))
  }

  /** One turn of the inner loop: the new base and size, and whether range r was merged. */
  function Grown(base: nat, size: nat, r: Smram): (nat, nat, bool) {
    if r.start < base && base == r.End() then (r.start % BASE_4GB, Sum32(size, r.size), true)
    else if Sum32(base, size) == r.start && r.size > 0 then (base, Sum32(size, r.size), true)
    else (base, size, false)
  }

  /** The memory from base on is exactly the union of the ranges named in `parts`. */
  ghost predicate Union(ranges: seq<Smram>, parts: set<nat>, base: nat, size: nat) {
    && (forall i {:trigger i in parts} :: i in parts ==>
       i < |ranges| && base <= ranges[i].start && ranges[i].End() <= base + size)
    && (forall a {:trigger Covered(ranges, parts, a)} :: base <= a < base + size ==> Covered(ranges, parts, a))
  }

  ghost predicate Covered(ranges: seq<Smram>, parts: set<nat>, a: int) {
    exists i :: i in parts && i < |ranges| && 0 <= a && Holds(ranges[i], a)
  }

  /** What the merging keeps. */
  ghost predicate Merging(ranges: seq<Smram>, current: nat, parts: set<nat>, base: nat, size: nat) {
    && current < |ranges| && 0 < size < BASE_4GB && base + size <= BASE_4GB
    && current in parts && Union(ranges, parts, base, size) && Reaches(ranges, ranges[current].End(), base + size)
  }

  /** Where nothing wraps, a merge adds the range at one end. */
  lemma GrownAtEnd(base: nat, size: nat, r: Smram)
    requires 0 < size < BASE_4GB && base + size <= BASE_4GB
    requires base + size == BASE_4GB && r.size > 0 ==> r.start != 0
    requires base + size == r.start < BASE_4GB ==> r.End() <= BASE_4GB && (base == 0 ==> r.End() < BASE_4GB)
    ensures var (b, s, found) := Grown(base, size, r);
      if found then
        && r.start < BASE_4GB && r.size > 0 && s == size + r.size < BASE_4GB && b + s <= BASE_4GB
        && ((b == r.start && base == r.End()) || (b == base && r.start == base + size))
      else b == base && s == size
  {
  }

  /** In a safe list no merge wraps. */
  lemma GrownKeeps(ranges: seq<Smram>, current: nat, parts: set<nat>, base: nat, size: nat, i: nat)
    requires current < |ranges| && Safe(ranges, current) && Merging(ranges, current, parts, base, size) && i < |ranges|
    ensures var (b, s, found) := Grown(base, size, ranges[i]);
      && (!found ==> b == base && s == size)
      && (found ==> b <= base && base + size <= b + s && s > size && Merging(ranges, current, parts + {i}, b, s))
  {
    var r := ranges[i];
    if base + size == r.start < BASE_4GB && r.size > 0 {
      assert Reaches(ranges, ranges[current].End(), r.End());
      if base == 0 {
        assert Covered(ranges, parts, 0);
      }
    }
    GrownAtEnd(base, size, r);
    var (b, s, found) := Grown(base, size, r);
    if found {
      UnionMore(ranges, parts, base, size, i, b, s);
    }
  }

  lemma UnionMore(ranges: seq<Smram>, parts: set<nat>, base: nat, size: nat, i: nat, b: nat, s: nat)
    requires Union(ranges, parts, base, size) && i < |ranges| && s == size + ranges[i].size
    requires (b == ranges[i].start && base == ranges[i].End()) || (b == base && ranges[i].start == base + size)
    ensures Union(ranges, parts + {i}, b, s)
  {
    forall a {:trigger Covered(ranges, parts + {i}, a)} | b <= a < b + s ensures Covered(ranges, parts + {i}, a) {
      if base <= a < base + size {
        assert Covered(ranges, parts, a);
        var j :| j in parts && j < |ranges| && 0 <= a && Holds(ranges[j], a);
        assert j in parts + {i};
      } else {
        assert i in parts + {i} && Holds(ranges[i], a);
      }
    }
  }

  // ---------------------------------------------------------------- when the merging can work

  /** The ranges have no address in common. */
  ghost predicate Disjoint(ranges: seq<Smram>) {
    forall i, j, a {:trigger Holds(ranges[i], a), Holds(ranges[j], a)} ::
      0 <= i < |ranges| && 0 <= j < |ranges| && Holds(ranges[i], a) && Holds(ranges[j], a) ==> i == j
  }

  ghost predicate Adjoins(r: Smram, base: nat, size: nat) {
    r.size > 0 && r.start < BASE_4GB && (r.End() == base || r.start == base + size)
  }

  /** [base, base + size) is the union of the given range and some others, and no range adjoins it. */
  ghost predicate Region(ranges: seq<Smram>, current: nat, base: nat, size: nat) {
    && base + size <= BASE_4GB
    && (exists parts: set<nat> :: current in parts && Union(ranges, parts, base, size))
    && forall j :: 0 <= j < |ranges| ==> !Adjoins(ranges[j], base, size)
  }

  /** The loop ends at base and size: a further pass finds nothing to merge. */
  ghost predicate Stops(ranges: seq<Smram>, base: nat, size: nat) {
    base < BASE_4GB && size < BASE_4GB && forall i :: 0 <= i < |ranges| ==> !Grown(base, size, ranges[i]).2
  }

  lemma {:induction false} ReachesUp(ranges: seq<Smram>, from: nat, top: nat)
    requires Reaches(ranges, from, top)
    ensures from <= top
    decreases top
  {
    if top != from {
      var i :| 0 <= i < |ranges| && ranges[i].size > 0 && ranges[i].start < BASE_4GB && ranges[i].End() == top
               && Reaches(ranges, from, ranges[i].start);
      ReachesUp(ranges, from, ranges[i].start);
    }
  }

  /** A region that nothing adjoins holds every chain from its range. */
  lemma {:induction false} RegionHolds(ranges: seq<Smram>, current: nat, parts: set<nat>, base: nat, size: nat,
          top: nat)
    requires Disjoint(ranges) && current in parts && current < |ranges| && Union(ranges, parts, base, size)
    requires forall j :: 0 <= j < |ranges| ==> !Adjoins(ranges[j], base, size)
    requires Reaches(ranges, ranges[current].End(), top)
    ensures top <= base + size
    decreases top
  {
    if top != ranges[current].End() {
      var i :| 0 <= i < |ranges| && ranges[i].size > 0 && ranges[i].start < BASE_4GB && ranges[i].End() == top
               && Reaches(ranges, ranges[current].End(), ranges[i].start);
      ReachesUp(ranges, ranges[current].End(), ranges[i].start);
      RegionHolds(ranges, current, parts, base, size, ranges[i].start);
      assert !Adjoins(ranges[i], base, size);
      assert Covered(ranges, parts, ranges[i].start);
      var k :| k in parts && k < |ranges| && Holds(ranges[k], ranges[i].start);
      assert Holds(ranges[i], ranges[i].start);
    }
  }

  /** Growing as long as a range adjoins. */
  lemma {:induction false} GrowOn(ranges: seq<Smram>, current: nat, parts: set<nat>, base: nat, size: nat)
    returns (parts': set<nat>, base': nat, size': nat)
    requires current < |ranges| && Safe(ranges, current) && Merging(ranges, current, parts, base, size)
    ensures Merging(ranges, current, parts', base', size') && Stops(ranges, base', size')
    decreases BASE_4GB - size
  {
    if i :| 0 <= i < |ranges| && Grown(base, size, ranges[i]).2 {
      GrownKeeps(ranges, current, parts, base, size, i);
      var (b, s, found) := Grown(base, size, ranges[i]);
      parts', base', size' := GrowOn(ranges, current, parts + {i}, b, s);
    } else {
      parts', base', size' := parts, base, size;
    }
  }

  lemma StartsMerging(ranges: seq<Smram>, current: nat)
    requires current < |ranges| && Eligible(ranges[current])
    ensures Merging(ranges, current, {current}, ranges[current].start, ranges[current].size)
  {
    var base, size := ranges[current].start, ranges[current].size;
    forall a {:trigger Covered(ranges, {current}, a)} | base <= a < base + size ensures Covered(ranges, {current}, a) {
      assert current in {current} && Holds(ranges[current], a);
    }
  }

  lemma StopsAtRegion(ranges: seq<Smram>, current: nat, parts: set<nat>, base: nat, size: nat)
    requires Merging(ranges, current, parts, base, size) && Stops(ranges, base, size)
    ensures Region(ranges, current, base, size)
  {
    forall j | 0 <= j < |ranges| ensures !Adjoins(ranges[j], base, size) {
      assert !Grown(base, size, ranges[j]).2;
    }
  }

  /** Of disjoint ranges, the loop can end at the region it is meant to find if and only if the list is safe: where a
      chain from the chosen range wraps, no base and size at which it ends are that region. */
  lemma RegionIff(ranges: seq<Smram>, current: nat)
    requires Disjoint(ranges) && current < |ranges| && Eligible(ranges[current])
    ensures Safe(ranges, current) <==>
      exists base, size :: Stops(ranges, base, size) && Region(ranges, current, base, size)
  {
    if Safe(ranges, current) {
      StartsMerging(ranges, current);
      var parts, base, size := GrowOn(ranges, current, {current}, ranges[current].start, ranges[current].size);
      StopsAtRegion(ranges, current, parts, base, size);
    }
    if base, size :| Stops(ranges, base, size) && Region(ranges, current, base, size) {
      var parts: set<nat> :| current in parts && Union(ranges, parts, base, size);
      forall top: nat {:trigger Reaches(ranges, ranges[current].End(), top)} |
        Reaches(ranges, ranges[current].End(), top)
        ensures top <= BASE_4GB && !(top == BASE_4GB && AtZero(ranges))
      {
        RegionHolds(ranges, current, parts, base, size, top);
      }
    }
  }

  /** One pass of the inner loop over the first n ranges. */
  function Pass(ranges: seq<Smram>, base: nat, size: nat, n: nat): (nat, nat, bool)
    requires n <= |ranges|
  {
    if n == 0 then (base, size, false)
    else
      var (b, s, found) := Pass(ranges, base, size, n - 1);
      var (b', s', more) := Grown(b, s, ranges[n - 1]);
      (b', s', found || more)
  }

  /** A range that ends at 4GB takes one that starts at 0 for its neighbour: the loop ends with a region beyond 4GB. */
  lemma WrapMerges()
    ensures var ranges := [Smram(0xFF00_0000, 0x0100_0000, true), Smram(0, 0x1000, true)];
      && Chosen(ranges, 0) && Disjoint(ranges) && !Safe(ranges, 0)
      && Pass(ranges, 0xFF00_0000, 0x0100_0000, 2) == (0xFF00_0000, 0x0100_1000, true)
      && Pass(ranges, 0xFF00_0000, 0x0100_1000, 2) == (0xFF00_0000, 0x0100_1000, false)
      && Stops(ranges, 0xFF00_0000, 0x0100_1000) && !Region(ranges, 0, 0xFF00_0000, 0x0100_1000)
  {
    var ranges := [Smram(0xFF00_0000, 0x0100_0000, true), Smram(0, 0x1000, true)];
    assert ranges[1].start == 0;
    assert Reaches(ranges, ranges[0].End(), BASE_4GB);
    assert Pass(ranges, 0xFF00_0000, 0x0100_0000, 1) == (0xFF00_0000, 0x0100_0000, false);
    assert Pass(ranges, 0xFF00_0000, 0x0100_1000, 1) == (0xFF00_0000, 0x0100_1000, false);
  }

  /** Where the ranges fill all of 4GB the loop does not end. */
  lemma WrapForever()
    ensures var ranges := [Smram(0x8000_0000, 0x8000_0000, true), Smram(0, 0x8000_0000, true)];
      && Chosen(ranges, 0) && Disjoint(ranges) && !Safe(ranges, 0)
      && Pass(ranges, 0x8000_0000, 0x8000_0000, 2) == (0, 0, true)
      && Pass(ranges, 0, 0, 2) == (0, 0x8000_0000, true)
      && Pass(ranges, 0, 0x8000_0000, 2) == (0, 0x8000_0000, true)
  {
    var ranges := [Smram(0x8000_0000, 0x8000_0000, true), Smram(0, 0x8000_0000, true)];
    assert ranges[1].start == 0;
    assert Reaches(ranges, ranges[0].End(), BASE_4GB);
    assert Pass(ranges, 0x8000_0000, 0x8000_0000, 1) == (0x8000_0000, 0x8000_0000, false);
    assert Pass(ranges, 0, 0, 1) == (0, 0, false);
    assert Pass(ranges, 0, 0x8000_0000, 1) == (0, 0, true);
  }

  // ---------------------------------------------------------------- FindSmramInfo

  /** Find the largest range between 1MB and 4GB that is large enough; the last of those of one size. */
  method FindLargest(ranges: seq<Smram>) returns (best: Option<nat>)
    ensures best.None? <==> forall i :: 0 <= i < |ranges| ==> !Eligible(ranges[i])
    ensures best.Some? ==> best.value < |ranges| && Eligible(ranges[best.value])
    ensures best.Some? ==> forall i :: 0 <= i < |ranges| && Eligible(ranges[i]) ==>
      ranges[i].size <= ranges[best.value].size && (ranges[i].size == ranges[best.value].size ==> i <= best.value)
    // those that qualify are usable, from 1MB on, up to 4GB, and hold 256KB but for one page
    ensures forall i :: 0 <= i < |ranges| ==> (Eligible(ranges[i]) <==>
      ranges[i].usable && 0x10_0000 <= ranges[i].start && ranges[i].start + ranges[i].size <= 0x1_0000_0000
      && 0x3_F000 <= ranges[i].size)
  {
    best := None;
    var index, maxSize := 0, MIN_SIZE;
    while index < |ranges|
      invariant index <= |ranges|
      invariant best.None? ==> maxSize == MIN_SIZE && forall i :: 0 <= i < index ==> !Eligible(ranges[i])
      invariant best.Some? ==> best.value < index && Eligible(ranges[best.value]) && maxSize == ranges[best.value].size
      invariant best.Some? ==> forall i :: 0 <= i < index && Eligible(ranges[i]) ==>
        ranges[i].size <= maxSize && (ranges[i].size == maxSize ==> i <= best.value)
    {
      var r := ranges[index];
      if r.usable && r.start >= BASE_1MB && r.start + r.size <= BASE_4GB && r.size >= maxSize {
        maxSize := r.size;
        best := Some(index);
      }
      index := index + 1;
    }
  }

  /** The do-while loop: in a safe list it ends, at the region of the range it began with. */
  method Merge(ranges: seq<Smram>, current: nat) returns (base: nat, size: nat)
    requires current < |ranges| && Eligible(ranges[current]) && Safe(ranges, current)
    ensures Region(ranges, current, base, size) && Stops(ranges, base, size)
  {
    base, size := ranges[current].start, ranges[current].size;
    ghost var parts := {current};
    StartsMerging(ranges, current);
    var found := true;
    while found
      invariant Merging(ranges, current, parts, base, size)
      invariant !found ==> forall i :: 0 <= i < |ranges| ==> !Grown(base, size, ranges[i]).2
      decreases BASE_4GB - size, found
    {
      base, size, parts, found := MergePass(ranges, current, base, size, parts);
    }
    StopsAtRegion(ranges, current, parts, base, size);
  }

  /** One pass over all ranges. */
  method MergePass(ranges: seq<Smram>, ghost current: nat, base: nat, size: nat, ghost parts: set<nat>)
    returns (base': nat, size': nat, ghost parts': set<nat>, found: bool)
    requires current < |ranges| && Safe(ranges, current) && Merging(ranges, current, parts, base, size)
    ensures (base', size', found) == Pass(ranges, base, size, |ranges|)
    ensures Merging(ranges, current, parts', base', size') && size <= size' && (found <==> size < size')
    ensures !found ==> base' == base && forall i :: 0 <= i < |ranges| ==> !Grown(base, size, ranges[i]).2
  {
    base', size', parts', found := base, size, parts, false;
    var index := 0;
    while index < |ranges|
      invariant index <= |ranges| && (base', size', found) == Pass(ranges, base, size, index)
      invariant Merging(ranges, current, parts', base', size') && size <= size' && (found <==> size < size')
      invariant !found ==> base' == base && forall i :: 0 <= i < index ==> !Grown(base, size, ranges[i]).2
    {
      var r := ranges[index];
      GrownKeeps(ranges, current, parts', base', size', index);
      if r.start < base' && base' == r.start + r.size {
        base', size', parts', found := r.start % BASE_4GB, Sum32(size', r.size), parts' + {index}, true;
      } else if Sum32(base', size') == r.start && r.size > 0 {
        size', parts', found := Sum32(size', r.size), parts' + {index}, true;
      }
      index := index + 1;
    }
  }

  /** Range i is the largest that qualifies, the last of its size. */
  ghost predicate Chosen(ranges: seq<Smram>, i: nat) {
    && i < |ranges| && Eligible(ranges[i])
    && forall j :: 0 <= j < |ranges| && Eligible(ranges[j]) ==>
      ranges[j].size <= ranges[i].size && (ranges[j].size == ranges[i].size ==> j <= i)
  }

  /** The region that is to be found. */
  ghost predicate SmramRegion(ranges: seq<Smram>, base: nat, size: nat) {
    exists i: nat :: Chosen(ranges, i) && Region(ranges, i, base, size)
  }

  /** FindSmramInfo: base and size of the SMRR, with the IED on top when there is one, and the IED's base.  Without a
      range that qualifies it stops at its ASSERT. */
  method FindSmramInfo(ranges: seq<Smram>, iedEnabled: bool, iedSize: nat) returns (base: nat, size: nat, iedBase: nat)
    requires exists i: nat :: Chosen(ranges, i) && Safe(ranges, i)
    ensures iedEnabled ==>
      exists n: nat :: SmramRegion(ranges, base, n)
        && iedBase == (base + n) % 0x1_0000_0000 && size == (n + iedSize) % 0x1_0000_0000
    ensures !iedEnabled ==> SmramRegion(ranges, base, size) && iedBase == 0xFFFF_FFFF
  {
    var best := FindLargest(ranges);
    assert Chosen(ranges, best.value);
    base, size := Merge(ranges, best.value);
    assert SmramRegion(ranges, base, size);
    if iedEnabled {
      iedBase := Sum32(base, size);
      size := Sum32(size, iedSize);
    } else {
      iedBase := BASE_4GB - 1;
    }
  }
}
