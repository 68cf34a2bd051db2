/** The 4-level page table that CpuPageTable.c edits, its entries, and the flat map it stands for.
    Addresses are counted in 4KB pages. */
module PageTree {
  import opened Common

  /** Whether the library runs on 4-level (X64) or PAE (I386) paging. */
  datatype Machine = X64 | I386

  /** A 64-bit entry: the bits the library looks at, the page number in bits 12 to 51, and whatever is left. */
  datatype Entry = Entry(p: bool, rw: bool, u: bool, a: bool, d: bool, ps: bool, nx: bool, addr: nat, rest: nat)

  const ZERO := Entry(false, false, false, false, false, false, false, 0, 0)

  type Tables = map<nat, seq<Entry>>

  /** An entry's location: the page holding its table, its index there, and the table's level. */
  datatype Slot = Slot(table: nat, index: nat, level: nat)

  /** An entry of a table at this level that points to another table. */
  predicate PointsDown(e: Entry, level: nat) {
    level > 1 && e != ZERO && (level == 4 || !e.ps)
  }

  /** The way down to page v as far as it goes: to a leaf, or to an entry of zeros. */
  function Stop(mem: Tables, level: nat, t: nat, v: nat): Option<Slot>
  {
    if level == 0 || t !in mem || |mem[t]| != 512 then None
    else
      var e := mem[t][Index(v, level)];
      if PointsDown(e, level) then Stop(mem, level - 1, e.addr, v) else Some(Slot(t, Index(v, level), level))
  }

  /** GetPageTableEntry takes an all-zero entry for a hole, but for that of page 0. */
  predicate Hole(e: Entry, level: nat, v: nat) { e == ZERO && !(level == 1 && v == 0) }

  function Get(mem: Tables, s: Slot): Entry {
    if s.table in mem && s.index < |mem[s.table]| then mem[s.table][s.index] else ZERO
  }

  /** GetPageTableEntry as a search down the tree: the entry that maps page v, if any. */
  function Find(mem: Tables, level: nat, t: nat, v: nat): Option<Slot> {
    match Stop(mem, level, t, v)
    case None => None
    case Some(s) => if Hole(Get(mem, s), s.level, v) then None else Some(s)
  }

  /** What the flat map says of a page. */
  datatype Mapping = Mapping(frame: nat, rp: bool, ro: bool, xp: bool)

  /** First frame of the large or small page that e maps. */
  function FrameBase(e: Entry, level: nat): nat { At(e.addr, level) * Span(level) }

  function MappingOf(e: Entry, level: nat, v: nat): Mapping {
    Mapping(FrameBase(e, level) + v % Span(level), !e.p, !e.rw, e.nx)
  }

  /** An entry where the way down to a page ends, and its level. */
  datatype Leaf = Leaf(level: nat, e: Entry) {
    function Maps(v: nat): Option<Mapping> { if Hole(e, level, v) then None else Some(MappingOf(e, level, v)) }
  }

  function LeafOf(mem: Tables, top: nat, root: nat, v: nat): Leaf {
    match Stop(mem, top, root, v)
    case None => Leaf(0, ZERO)
    case Some(s) => Leaf(s.level, Get(mem, s))
  }

  /** The mapping of page v, read at its leaf. */
  function View(mem: Tables, top: nat, root: nat, v: nat): Option<Mapping> { LeafOf(mem, top, root, v).Maps(v) }

  // ---------------------------------------------------------------- well-formed trees

  /** Where a table hangs: its level, and the index path from the root read as one number. */
  datatype Place = Place(level: nat, prefix: nat)

  ghost predicate EntryOk(mem: Tables, own: map<nat, Place>, t: nat, k: nat)
    requires t in mem && t in own && k < |mem[t]|
  {
    var e := mem[t][k];
    var p := own[t];
    PointsDown(e, p.level) ==>
      p.level > 1 && e.addr in mem && e.addr in own && own[e.addr] == Place(p.level - 1, p.prefix * 512 + k)
  }

  ghost predicate TableOk(mem: Tables, own: map<nat, Place>, top: nat, t: nat)
    requires t in mem && t in own
  {
    && t != 0 && |mem[t]| == 512 && 1 <= own[t].level <= top
    && forall k {:trigger EntryOk(mem, own, t, k)} :: 0 <= k < 512 ==> EntryOk(mem, own, t, k)
  }

  /** Every table hangs at one place, so no table is shared. */
  ghost predicate Tree(mem: Tables, own: map<nat, Place>, top: nat, root: nat) {
    && 3 <= top <= 4 && own.Keys == mem.Keys
    && root in mem && own[root] == Place(top, 0)
    && forall t {:trigger TableOk(mem, own, top, t)} :: t in mem ==> TableOk(mem, own, top, t)
  }

  lemma TreeOf(mem: Tables, own: map<nat, Place>, top: nat, root: nat, t: nat, k: nat)
    requires Tree(mem, own, top, root) && t in mem && k < 512
    ensures t != 0 && |mem[t]| == 512 && 1 <= own[t].level <= top && EntryOk(mem, own, t, k)
  {
    assert TableOk(mem, own, top, t);
  }

  lemma DivStep(v: nat, level: nat)
    requires 1 <= level <= 4
    ensures At(v, level) == 512 * (At(v, level + 1)) + Index(v, level)
  {
  }

  /** Pages under the same slot agree on the way down to it. */
  lemma SameUp(v: nat, w: nat, l: nat, level: nat)
    requires 1 <= l <= level <= 4 && At(v, l) == At(w, l)
    ensures At(v, level) == At(w, level) && Index(v, level) == Index(w, level)
    decreases level - l
  {
    if l < level {
      DivStep(v, l);
      DivStep(w, l);
      SameUp(v, w, l + 1, level);
    }
  }

  /** The way down ends at the place its page belongs to. */
  lemma {:induction false} StopPlace(mem: Tables, own: map<nat, Place>, top: nat, root: nat, level: nat, t: nat, v: nat)
    requires Tree(mem, own, top, root) && t in mem && own[t] == Place(level, At(v, level + 1))
    ensures Stop(mem, level, t, v).Some?
    ensures var s := Stop(mem, level, t, v).value;
      && s.table in mem && own[s.table] == Place(s.level, At(v, s.level + 1)) && 1 <= s.level <= level
      && s.index == Index(v, s.level) && !PointsDown(Get(mem, s), s.level)
  {
    TreeOf(mem, own, top, root, t, Index(v, level));
    var e := mem[t][Index(v, level)];
    if PointsDown(e, level) {
      DivStep(v, level);
      StopPlace(mem, own, top, root, level - 1, e.addr, v);
    }
  }

  // ---------------------------------------------------------------- replacing a leaf

  function Set(mem: Tables, s: Slot, e: Entry): Tables
    requires s.table in mem && s.index < |mem[s.table]|
  {
    mem[s.table := mem[s.table][s.index := e]]
  }

  /** A slot of the tree. */
  ghost predicate InTree(mem: Tables, own: map<nat, Place>, s: Slot) {
    s.table in mem && s.table in own && own[s.table].level == s.level && s.index < |mem[s.table]| == 512
  }

  /** The number of its place at its level. */
  ghost function Position(own: map<nat, Place>, s: Slot): nat
    requires s.table in own
  {
    own[s.table].prefix * 512 + s.index
  }

  /** Rewriting a leaf changes nobody's way. */
  lemma {:induction false} StopSet(mem: Tables, own: map<nat, Place>, top: nat, root: nat, s: Slot, e: Entry,
                                   level: nat, t: nat, w: nat)
    requires Tree(mem, own, top, root) && InTree(mem, own, s) && !PointsDown(Get(mem, s), s.level)
    requires !PointsDown(e, s.level) && t in mem && own[t] == Place(level, At(w, level + 1))
    ensures Stop(Set(mem, s, e), level, t, w) == Stop(mem, level, t, w)
  {
    TreeOf(mem, own, top, root, t, Index(w, level));
    var f := mem[t][Index(w, level)];
    DivStep(w, level);
    if PointsDown(f, level) {
      StopSet(mem, own, top, root, s, e, level - 1, f.addr, w);
    }
  }

  lemma TreeSet(mem: Tables, own: map<nat, Place>, top: nat, root: nat, s: Slot, e: Entry)
    requires Tree(mem, own, top, root) && InTree(mem, own, s) && !PointsDown(e, s.level)
    ensures Tree(Set(mem, s, e), own, top, root)
  {
    var mem' := Set(mem, s, e);
    forall t | t in mem' ensures TableOk(mem', own, top, t) {
      assert TableOk(mem, own, top, t);
      forall k | 0 <= k < 512 ensures EntryOk(mem', own, t, k) {
        assert EntryOk(mem, own, t, k);
      }
    }
  }

  /** All pages under a slot, and only they, end there. */
  lemma StopShared(mem: Tables, own: map<nat, Place>, top: nat, root: nat, level: nat, t: nat, v: nat, w: nat)
    requires Tree(mem, own, top, root) && t in mem
    requires own[t] == Place(level, At(v, level + 1)) && own[t] == Place(level, At(w, level + 1))
    ensures Stop(mem, level, t, v).Some?
    ensures var s := Stop(mem, level, t, v).value;
      Stop(mem, level, t, w) == Some(s) <==> At(v, s.level) == At(w, s.level)
  {
    TreeOf(mem, own, top, root, t, 0);
    StopPlace(mem, own, top, root, level, t, v);
    StopPlace(mem, own, top, root, level, t, w);
    var s := Stop(mem, level, t, v).value;
    DivStep(v, s.level);
    DivStep(w, s.level);
    if At(v, s.level) == At(w, s.level) {
      SharedDown(mem, own, top, root, level, t, v, w);
    }
  }

  lemma {:induction false} SharedDown(mem: Tables, own: map<nat, Place>, top: nat, root: nat, level: nat, t: nat,
                                      v: nat, w: nat)
    requires Tree(mem, own, top, root) && t in mem && own[t] == Place(level, At(v, level + 1))
    requires Stop(mem, level, t, v).Some? && 1 <= Stop(mem, level, t, v).value.level
    requires At(v, Stop(mem, level, t, v).value.level) == At(w, Stop(mem, level, t, v).value.level)
    ensures Stop(mem, level, t, w) == Stop(mem, level, t, v)
  {
    var s := Stop(mem, level, t, v).value;
    TreeOf(mem, own, top, root, t, 0);
    StopPlace(mem, own, top, root, level, t, v);
    SameUp(v, w, s.level, level);
    TreeOf(mem, own, top, root, t, Index(v, level));
    var e := mem[t][Index(v, level)];
    DivStep(v, level);
    if PointsDown(e, level) {
      SharedDown(mem, own, top, root, level - 1, e.addr, v, w);
    }
  }

  // ---------------------------------------------------------------- splitting a leaf

  /** The tree after slot s has been given a table of its own on page `page`. */
  function Grow(mem: Tables, s: Slot, parent: Entry, page: nat, kids: seq<Entry>): Tables
    requires s.table in mem && s.index < |mem[s.table]|
  {
    Set(mem, s, parent)[page := kids]
  }

  ghost predicate Grows(mem: Tables, own: map<nat, Place>, s: Slot, parent: Entry, page: nat, kids: seq<Entry>)
  {
    && InTree(mem, own, s) && s.level >= 2 && page != 0 && page !in mem && |kids| == 512
    && !PointsDown(Get(mem, s), s.level)
    && PointsDown(parent, s.level) && parent.addr == page
    && forall k {:trigger kids[k]} :: 0 <= k < 512 ==> !PointsDown(kids[k], s.level - 1)
  }

  /** Pages under the split slot end one level down, all others where they did. */
  lemma {:induction false} StopGrow(mem: Tables, own: map<nat, Place>, top: nat, root: nat, s: Slot, parent: Entry,
                                    page: nat, kids: seq<Entry>, level: nat, t: nat, w: nat)
    requires Tree(mem, own, top, root) && Grows(mem, own, s, parent, page, kids)
    requires t in mem && own[t] == Place(level, At(w, level + 1))
    ensures Stop(Grow(mem, s, parent, page, kids), level, t, w)
         == if Stop(mem, level, t, w) == Some(s) then Some(Slot(page, Index(w, s.level - 1), s.level - 1))
            else Stop(mem, level, t, w)
  {
    var mem' := Grow(mem, s, parent, page, kids);
    TreeOf(mem, own, top, root, t, Index(w, level));
    var f := mem[t][Index(w, level)];
    StopPlace(mem, own, top, root, level, t, w);
    DivStep(w, level);
    if PointsDown(f, level) {
      StopGrow(mem, own, top, root, s, parent, page, kids, level - 1, f.addr, w);
    } else if t == s.table && Index(w, level) == s.index {
      StopInKids(mem', level - 1, page, kids, w);
    }
  }

  lemma StopInKids(mem: Tables, level: nat, page: nat, kids: seq<Entry>, w: nat)
    requires level > 0 && page in mem && mem[page] == kids && |kids| == 512
    requires !PointsDown(kids[Index(w, level)], level)
    ensures Stop(mem, level, page, w) == Some(Slot(page, Index(w, level), level))
  {
  }

  lemma TreeGrow(mem: Tables, own: map<nat, Place>, top: nat, root: nat, s: Slot, parent: Entry, page: nat,
                 kids: seq<Entry>)
    requires Tree(mem, own, top, root) && Grows(mem, own, s, parent, page, kids)
    ensures Tree(Grow(mem, s, parent, page, kids), own[page := Place(s.level - 1, Position(own, s))], top, root)
  {
    var mem' := Grow(mem, s, parent, page, kids);
    var own' := own[page := Place(s.level - 1, Position(own, s))];
    TreeOf(mem, own, top, root, s.table, s.index);
    forall t | t in mem' ensures TableOk(mem', own', top, t) {
      if t != page { TreeOf(mem, own, top, root, t, 0); }
      forall k | 0 <= k < 512 ensures EntryOk(mem', own', t, k) {
        if t != page { TreeOf(mem, own, top, root, t, k); }
      }
    }
  }
}
