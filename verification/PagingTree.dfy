/** The demand-paged table tree of X64/PageTbl.c: tables hang at most once, every entry that points to a
    table carries the number of that table's present entries, and a page is either in the tree or in the pool. */
module PagingTree {
  import opened Common
  import opened Sums

  /** A 64-bit entry: P, the mask bit 62, PS, A, the access record in bits 9 to 11, the number of sub-entries
      in bits 52 to 60, the page number, and all other bits. */
  datatype Entry = Entry(p: bool, pmnt: bool, ps: bool, a: bool, acc: Record, sub: nat, addr: nat, attr: nat)

  /** An access record: three bits. */
  type Record = n: nat | n < 8

  const EMPTY := Entry(false, false, false, false, 0, 0, 0, 0)

  type Table = seq<Entry>

  type Tables = map<nat, Table>

  datatype Slot = Slot(table: nat, index: nat)

  /** Where a table hangs: its level, the index path from the root read as one number, and the table above. */
  datatype Place = Place(level: nat, prefix: nat, parent: nat)

  /** An entry of a table at this level that leads on to another table; masked entries lead nowhere. */
  predicate PointsDown(e: Entry, level: nat) {
    level > 1 && e.p && !e.pmnt && (level == 4 || !e.ps)
  }

  /** A page of zeros. */
  function Blank(): (r: Table)
    ensures |r| == 512 && forall k {:trigger r[k]} :: 0 <= k < 512 ==> r[k] == EMPTY
  {
    seq(512, k => EMPTY)
  }

  // ---------------------------------------------------------------- counting

  ghost function Flags(t: Table): (xs: seq<int>)
    ensures |xs| == |t| && forall i {:trigger xs[i]} :: 0 <= i < |xs| ==> xs[i] == if t[i].p then 1 else 0
  {
    seq(|t|, i requires 0 <= i < |t| => if t[i].p then 1 else 0)
  }

  /** The number of present entries. */
  ghost function Count(t: Table): int { Sum(Flags(t)) }

  lemma CountSet(t: Table, k: nat, e: Entry)
    requires k < |t|
    ensures Count(t[k := e]) == Count(t) - (if t[k].p then 1 else 0) + (if e.p then 1 else 0)
  {
    SumUpdate(Flags(t), k, if e.p then 1 else 0);
    assert Flags(t[k := e]) == Flags(t)[k := if e.p then 1 else 0];
  }

  lemma CountBounds(t: Table)
    ensures 0 <= Count(t) <= |t|
  {
    SumBounds(Flags(t), 0, 1);
  }

  lemma CountNone(t: Table)
    ensures Count(t) == 0 <==> forall k :: 0 <= k < |t| ==> !t[k].p
  {
    if forall k :: 0 <= k < |t| ==> !t[k].p {
      SumZero(Flags(t));
    } else {
      var k :| 0 <= k < |t| && t[k].p;
      CountSet(t, k, EMPTY);
      CountBounds(t[k := EMPTY]);
    }
  }

  // ---------------------------------------------------------------- well-formed trees

  /** By how much an entry's sub-entries number is ahead of the table below, in the middle of an operation. */
  ghost function Bias(bias: map<Slot, int>, s: Slot): int { if s in bias then bias[s] else 0 }

  ghost predicate EntryOk(mem: Tables, own: map<nat, Place>, low: nat, bias: map<Slot, int>, t: nat, k: nat)
    requires t in mem && t in own && k < |mem[t]|
  {
    var e := mem[t][k];
    && (PointsDown(e, own[t].level) ==>
         && e.addr in mem && e.addr in own
         && own[e.addr] == Place(own[t].level - 1, own[t].prefix * 512 + k, t)
         && e.sub + 1 == Count(mem[e.addr]) + Bias(bias, Slot(t, k)))
    && (e.pmnt ==> e.p && t == low)
  }

  /** A table other than the root hangs from the entry its place says. */
  ghost predicate Hangs(mem: Tables, own: map<nat, Place>, t: nat)
    requires t in own
  {
    var p := own[t].parent;
    && p in mem && p in own && |mem[p]| == 512 && own[p].level == own[t].level + 1
    && own[p].prefix == own[t].prefix / 512
    && PointsDown(mem[p][own[t].prefix % 512], own[p].level) && mem[p][own[t].prefix % 512].addr == t
  }

  ghost predicate TableOk(mem: Tables, own: map<nat, Place>, root: nat, low: nat, bias: map<Slot, int>, t: nat)
    requires t in mem && t in own
  {
    && |mem[t]| == 512 && 1 <= own[t].level <= 4
    && (t != root ==> Hangs(mem, own, t))
    && forall k {:trigger EntryOk(mem, own, low, bias, t, k)} :: 0 <= k < 512 ==> EntryOk(mem, own, low, bias, t, k)
  }

  /** A tree whose counts are exact but for the bias.  `low` is the masked table of the first 4GB. */
  ghost predicate Tree(mem: Tables, own: map<nat, Place>, root: nat, low: nat, bias: map<Slot, int>) {
    && own.Keys == mem.Keys && root in mem && low in mem && root != low
    && own[root] == Place(4, 0, root) && own[low] == Place(3, 0, root)
    && (forall t {:trigger TableOk(mem, own, root, low, bias, t)} :: t in mem ==> TableOk(mem, own, root, low, bias, t))
    && 0 < |mem[low]| && mem[low][0].pmnt
  }

  ghost predicate Apart(mem: Tables, pool: seq<nat>) {
    && (forall i {:trigger pool[i]} :: 0 <= i < |pool| ==> pool[i] !in mem)
    && (forall i, j {:trigger pool[i], pool[j]} :: 0 <= i < j < |pool| ==> pool[i] != pool[j])
  }

  /** All pages the handler manages. */
  ghost function Pages(mem: Tables, pool: seq<nat>): set<nat> { mem.Keys + set p | p in pool }

  // ---------------------------------------------------------------- translation

  /** What a present entry that leads nowhere says of the pages under it. */
  datatype Leaf = Leaf(level: nat, addr: nat, ps: bool, pmnt: bool, attr: nat)

  function View(mem: Tables, level: nat, t: nat, v: nat): Option<Leaf> {
    if level == 0 || t !in mem || |mem[t]| != 512 then None
    else
      var e := mem[t][Index(v, level)];
      if !e.p then None
      else if PointsDown(e, level) then View(mem, level - 1, e.addr, v)
      else Some(Leaf(level, e.addr, e.ps, e.pmnt, e.attr))
  }

  lemma DivStep(v: nat, level: nat)
    requires 1 <= level <= 4
    ensures At(v, level) == 512 * (At(v, level + 1)) + Index(v, level)
    ensures At(v, level) / 512 == At(v, level + 1) && At(v, level) % 512 == Index(v, level)
  {
  }

  ghost predicate SameBias(b: map<Slot, int>, b': map<Slot, int>) {
    forall s {:trigger s in b} {:trigger s in b'} {:trigger Bias(b, s)} {:trigger Bias(b', s)} ::
      Bias(b, s) == Bias(b', s)
  }

  lemma TreeBias(mem: Tables, own: map<nat, Place>, root: nat, low: nat, b: map<Slot, int>, b': map<Slot, int>)
    requires Tree(mem, own, root, low, b) && SameBias(b, b')
    ensures Tree(mem, own, root, low, b')
  {
    forall t | t in mem ensures TableOk(mem, own, root, low, b', t) {
      assert TableOk(mem, own, root, low, b, t);
      forall k | 0 <= k < 512 ensures EntryOk(mem, own, low, b', t, k) {
        assert EntryOk(mem, own, low, b, t, k);
      }
    }
  }

  /** Two trees translate every page alike. */
  ghost predicate SameView(mem: Tables, mem': Tables, root: nat) {
    forall w: nat {:trigger View(mem', 4, root, w)} :: w < Span(5) ==> View(mem', 4, root, w) == View(mem, 4, root, w)
  }

  lemma SameViewOn(a: Tables, b: Tables, c: Tables, root: nat)
    requires SameView(a, b, root) && SameView(b, c, root)
    ensures SameView(a, c, root)
  {
    forall w: nat | w < Span(5) ensures View(c, 4, root, w) == View(a, 4, root, w) {
      assert View(b, 4, root, w) == View(b, 4, root, w);
    }
  }

  // ---------------------------------------------------------------- changes that keep the tree

  function Put(mem: Tables, s: Slot, e: Entry): Tables
    requires s.table in mem && s.index < |mem[s.table]|
  {
    mem[s.table := mem[s.table][s.index := e]]
  }

  /** SetSubEntriesNum. */
  function SetSub(mem: Tables, s: Slot, n: nat): Tables
    requires s.table in mem && s.index < |mem[s.table]|
  {
    Put(mem, s, Get(mem, s).(sub := n))
  }

  function Get(mem: Tables, s: Slot): Entry {
    if s.table in mem && s.index < |mem[s.table]| then mem[s.table][s.index] else EMPTY
  }

  ghost predicate InTree(mem: Tables, own: map<nat, Place>, s: Slot) {
    s.table in mem && s.table in own && s.index < 512 == |mem[s.table]|
  }

  /** The slot that leads to table t. */
  ghost function Above(own: map<nat, Place>, t: nat): Slot
    requires t in own
  {
    Slot(own[t].parent, own[t].prefix % 512)
  }

  ghost function Ahead(bias: map<Slot, int>, s: Slot, d: int): map<Slot, int> {
    bias[s := Bias(bias, s) + d]
  }

  /** The bias after the number of present entries of table t has grown by -d. */
  ghost function Shift(bias: map<Slot, int>, own: map<nat, Place>, root: nat, t: nat, d: int): map<Slot, int>
    requires t in own
  {
    if t == root then bias else Ahead(bias, Above(own, t), d)
  }

  ghost function Position(own: map<nat, Place>, s: Slot): nat
    requires s.table in own
  {
    own[s.table].prefix * 512 + s.index
  }

  /** The entries of two trees differ in their access records at most. */
  ghost predicate SameShape(mem: Tables, mem': Tables) {
    && mem'.Keys == mem.Keys
    && (forall t {:trigger mem'[t]} :: t in mem ==> |mem'[t]| == |mem[t]|)
    && (forall t, k {:trigger mem'[t][k]} :: t in mem && 0 <= k < |mem[t]| ==>
       mem'[t][k] == mem[t][k].(a := mem'[t][k].a, acc := mem'[t][k].acc))
  }

  lemma {:induction false} ShapeView(mem: Tables, mem': Tables, level: nat, t: nat, v: nat)
    requires SameShape(mem, mem')
    ensures View(mem', level, t, v) == View(mem, level, t, v)
  {
    if level > 0 && t in mem && |mem[t]| == 512 {
      var e := mem[t][Index(v, level)];
      assert mem'[t][Index(v, level)] == e.(a := mem'[t][Index(v, level)].a, acc := mem'[t][Index(v, level)].acc);
      if PointsDown(e, level) {
        ShapeView(mem, mem', level - 1, e.addr, v);
      }
    }
  }

  /** What a tree says of one entry, of the table it stands in, and of the table it leads to. */
  ghost predicate Facts(mem: Tables, own: map<nat, Place>, root: nat, low: nat, bias: map<Slot, int>, t: nat, k: nat) {
    && t in mem && t in own && k < 512 == |mem[t]| && 1 <= own[t].level <= 4 && (t != root ==> Hangs(mem, own, t))
    && EntryOk(mem, own, low, bias, t, k)
    && (PointsDown(mem[t][k], own[t].level) ==>
         && Above(own, mem[t][k].addr) == Slot(t, k) && mem[t][k].addr != root && mem[t][k].addr != t
         && Position(own, Slot(t, k)) == own[mem[t][k].addr].prefix)
  }

  lemma FactsOf(mem: Tables, own: map<nat, Place>, root: nat, low: nat, bias: map<Slot, int>, t: nat, k: nat)
    requires Tree(mem, own, root, low, bias) && t in mem && k < 512
    ensures Facts(mem, own, root, low, bias, t, k)
  {
    assert TableOk(mem, own, root, low, bias, t);
    assert EntryOk(mem, own, low, bias, t, k);
  }

  /** A tree is what its entries make it. */
  lemma TreeOf(mem: Tables, own: map<nat, Place>, root: nat, low: nat, bias: map<Slot, int>)
    requires own.Keys == mem.Keys && root in mem && low in mem && root != low
    requires own[root] == Place(4, 0, root) && own[low] == Place(3, 0, root)
    requires forall t, k {:trigger Facts(mem, own, root, low, bias, t, k)} ::
      t in mem && 0 <= k < 512 ==> Facts(mem, own, root, low, bias, t, k)
    requires 0 < |mem[low]| && mem[low][0].pmnt
    ensures Tree(mem, own, root, low, bias)
  {
    forall t | t in mem ensures TableOk(mem, own, root, low, bias, t) {
      assert Facts(mem, own, root, low, bias, t, 0);
      forall k | 0 <= k < 512 ensures EntryOk(mem, own, low, bias, t, k) {
        assert Facts(mem, own, root, low, bias, t, k);
      }
    }
  }

  lemma ShapeTree(mem: Tables, mem': Tables, own: map<nat, Place>, root: nat, low: nat, bias: map<Slot, int>)
    requires Tree(mem, own, root, low, bias) && SameShape(mem, mem')
    ensures Tree(mem', own, root, low, bias)
  {
    FactsOf(mem, own, root, low, bias, low, 0);
    forall t, k | t in mem' && 0 <= k < 512 ensures Facts(mem', own, root, low, bias, t, k) {
      FactsOf(mem, own, root, low, bias, t, k);
      ShapeEntry(mem, mem', own, root, low, bias, t, k);
    }
    TreeOf(mem', own, root, low, bias);
  }

  lemma ShapeEntry(mem: Tables, mem': Tables, own: map<nat, Place>, root: nat, low: nat, bias: map<Slot, int>, t: nat,
                   k: nat)
    requires Facts(mem, own, root, low, bias, t, k) && SameShape(mem, mem')
    ensures Facts(mem', own, root, low, bias, t, k)
  {
    forall x | x in mem ensures Count(mem'[x]) == Count(mem[x]) {
      assert Flags(mem'[x]) == Flags(mem[x]);
    }
  }

  /** Rewriting the number of sub-entries of an entry that leads on. */
  lemma SubTree(mem: Tables, own: map<nat, Place>, root: nat, low: nat, bias: map<Slot, int>, s: Slot, n: nat)
    requires Tree(mem, own, root, low, bias) && InTree(mem, own, s) && PointsDown(Get(mem, s), own[s.table].level)
    ensures Tree(SetSub(mem, s, n), own, root, low, Ahead(bias, s, n - Get(mem, s).sub))
  {
    var mem' := SetSub(mem, s, n);
    var bias' := Ahead(bias, s, n - Get(mem, s).sub);
    FactsOf(mem, own, root, low, bias, low, 0);
    FactsOf(mem, own, root, low, bias, s.table, s.index);
    forall t, k | t in mem && 0 <= k < 512 ensures Facts(mem', own, root, low, bias', t, k) {
      FactsOf(mem, own, root, low, bias, t, k);
      SubEntry(mem, own, root, low, bias, s, n, t, k);
    }
    TreeOf(mem', own, root, low, bias');
  }

  lemma SubEntry(mem: Tables, own: map<nat, Place>, root: nat, low: nat, bias: map<Slot, int>, s: Slot, n: nat, t: nat,
                 k: nat)
    requires Facts(mem, own, root, low, bias, s.table, s.index) && PointsDown(Get(mem, s), own[s.table].level)
    requires Facts(mem, own, root, low, bias, t, k)
    ensures Facts(SetSub(mem, s, n), own, root, low, Ahead(bias, s, n - Get(mem, s).sub), t, k)
  {
    CountSet(mem[s.table], s.index, Get(mem, s).(sub := n));
  }

  lemma {:induction false} SubView(mem: Tables, s: Slot, n: nat, level: nat, t: nat, v: nat)
    requires s.table in mem && s.index < |mem[s.table]|
    ensures View(SetSub(mem, s, n), level, t, v) == View(mem, level, t, v)
  {
    if level > 0 && t in mem && |mem[t]| == 512 && PointsDown(mem[t][Index(v, level)], level) {
      SubView(mem, s, n, level - 1, mem[t][Index(v, level)].addr, v);
    }
  }

  /** A present entry that leads nowhere takes an empty place. */
  lemma FillTree(mem: Tables, own: map<nat, Place>, root: nat, low: nat, bias: map<Slot, int>, s: Slot, e: Entry)
    requires Tree(mem, own, root, low, bias) && InTree(mem, own, s) && !Get(mem, s).p
    requires e.p && !e.pmnt && !PointsDown(e, own[s.table].level)
    ensures Tree(Put(mem, s, e), own, root, low, Shift(bias, own, root, s.table, -1))
  {
    var mem' := Put(mem, s, e);
    FactsOf(mem, own, root, low, bias, low, 0);
    FactsOf(mem, own, root, low, bias, s.table, s.index);
    forall t, k | t in mem && 0 <= k < 512
      ensures Facts(mem', own, root, low, Shift(bias, own, root, s.table, -1), t, k)
    {
      FactsOf(mem, own, root, low, bias, t, k);
      FillEntry(mem, own, root, low, bias, s, e, t, k);
    }
    TreeOf(mem', own, root, low, Shift(bias, own, root, s.table, -1));
  }

  lemma FillEntry(mem: Tables, own: map<nat, Place>, root: nat, low: nat, bias: map<Slot, int>, s: Slot, e: Entry,
                  t: nat, k: nat)
    requires InTree(mem, own, s) && !Get(mem, s).p && e.p && !e.pmnt && !PointsDown(e, own[s.table].level)
    requires Facts(mem, own, root, low, bias, t, k) && Facts(mem, own, root, low, bias, s.table, s.index)
    ensures Facts(Put(mem, s, e), own, root, low, Shift(bias, own, root, s.table, -1), t, k)
  {
    CountSet(mem[s.table], s.index, e);
  }

  /** An entry for a new, empty table takes an empty place; it is one ahead of that table. */
  ghost predicate Attaches(mem: Tables, own: map<nat, Place>, bias: map<Slot, int>, s: Slot, e: Entry, blank: Table) {
    && InTree(mem, own, s) && !Get(mem, s).p && s !in bias
    && PointsDown(e, own[s.table].level) && e.sub == 0 && e.addr !in mem
    && |blank| == 512 && forall k {:trigger blank[k]} :: 0 <= k < 512 ==> blank[k] == EMPTY
  }

  function Attach(mem: Tables, s: Slot, e: Entry, blank: Table): Tables
    requires s.table in mem && s.index < |mem[s.table]|
  {
    Put(mem, s, e)[e.addr := blank]
  }

  /** The places once slot s leads to a table on `page`. */
  ghost function Housed(own: map<nat, Place>, s: Slot, page: nat): map<nat, Place>
    requires s.table in own && 0 < own[s.table].level
  {
    own[page := Place(own[s.table].level - 1, Position(own, s), s.table)]
  }

  lemma AttachTree(mem: Tables, own: map<nat, Place>, root: nat, low: nat, bias: map<Slot, int>, s: Slot, e: Entry,
                   blank: Table)
    requires Tree(mem, own, root, low, bias) && Attaches(mem, own, bias, s, e, blank)
    ensures Tree(Attach(mem, s, e, blank), Housed(own, s, e.addr), root, low,
                 Shift(bias, own, root, s.table, -1)[s := 1])
  {
    var mem', own', bias' := Attach(mem, s, e, blank), Housed(own, s, e.addr),
      Shift(bias, own, root, s.table, -1)[s := 1];
    FactsOf(mem, own, root, low, bias, low, 0);
    forall t, k | t in mem' && 0 <= k < 512 ensures Facts(mem', own', root, low, bias', t, k) {
      AttachFacts(mem, own, root, low, bias, s, e, blank, t, k);
    }
    AttachFrame(mem, own, root, low, s, e, blank);
    TreeOf(mem', own', root, low, bias');
  }

  lemma AttachFrame(mem: Tables, own: map<nat, Place>, root: nat, low: nat, s: Slot, e: Entry, blank: Table)
    requires own.Keys == mem.Keys && InTree(mem, own, s) && e.addr !in mem && root in mem && low in mem
      && |blank| == 512
    requires |mem[low]| == 512 && !Get(mem, s).p && mem[low][0].p && 0 < own[s.table].level
    ensures Housed(own, s, e.addr).Keys == Attach(mem, s, e, blank).Keys
    ensures Housed(own, s, e.addr)[root] == own[root] && Housed(own, s, e.addr)[low] == own[low]
    ensures |Attach(mem, s, e, blank)[low]| == 512 && Attach(mem, s, e, blank)[low][0] == mem[low][0]
  {
  }

  lemma AttachFacts(mem: Tables, own: map<nat, Place>, root: nat, low: nat, bias: map<Slot, int>, s: Slot, e: Entry,
                    blank: Table, t: nat, k: nat)
    requires Tree(mem, own, root, low, bias) && Attaches(mem, own, bias, s, e, blank)
    requires t in Attach(mem, s, e, blank) && k < 512
    ensures Facts(Attach(mem, s, e, blank), Housed(own, s, e.addr), root, low,
      Shift(bias, own, root, s.table, -1)[s := 1], t, k)
  {
    FactsOf(mem, own, root, low, bias, s.table, s.index);
    if t == e.addr {
      BlankEntry(mem, own, root, low, bias, s, e, blank, k);
    } else {
      FactsOf(mem, own, root, low, bias, t, k);
      AttachEntry(mem, own, root, low, bias, s, e, blank, t, k);
    }
  }

  lemma AttachEntry(mem: Tables, own: map<nat, Place>, root: nat, low: nat, bias: map<Slot, int>, s: Slot, e: Entry,
                    blank: Table, t: nat, k: nat)
    requires own.Keys == mem.Keys && Attaches(mem, own, bias, s, e, blank)
    requires Facts(mem, own, root, low, bias, t, k) && Facts(mem, own, root, low, bias, s.table, s.index) && root in mem
    ensures Facts(Attach(mem, s, e, blank), Housed(own, s, e.addr),
                  root, low, Shift(bias, own, root, s.table, -1)[s := 1], t, k)
  {
    CountSet(mem[s.table], s.index, e);
    CountNone(blank);
  }

  lemma BlankEntry(mem: Tables, own: map<nat, Place>, root: nat, low: nat, bias: map<Slot, int>, s: Slot, e: Entry,
                   blank: Table, k: nat)
    requires own.Keys == mem.Keys && Attaches(mem, own, bias, s, e, blank) && k < 512
    requires Facts(mem, own, root, low, bias, s.table, s.index)
    ensures Facts(Attach(mem, s, e, blank), Housed(own, s, e.addr),
                  root, low, Shift(bias, own, root, s.table, -1)[s := 1], e.addr, k)
  {
  }

  /** A table that leads nowhere. */
  ghost predicate Twig(mem: Tables, own: map<nat, Place>, low: nat, c: nat) {
    c in mem && c in own && c != low && |mem[c]| == 512 && forall k {:trigger mem[c][k]} :: 0 <= k < 512 ==>
      !PointsDown(mem[c][k], own[c].level)
  }

  /** The tree without the table that slot s leads to. */
  function Drop(mem: Tables, s: Slot): Tables
    requires s.table in mem && s.index < |mem[s.table]|
  {
    Put(mem, s, EMPTY) - {Get(mem, s).addr}
  }

  lemma DropTree(mem: Tables, own: map<nat, Place>, root: nat, low: nat, bias: map<Slot, int>, s: Slot)
    requires Tree(mem, own, root, low, bias) && InTree(mem, own, s) && PointsDown(Get(mem, s), own[s.table].level)
    requires Twig(mem, own, low, Get(mem, s).addr)
    ensures Tree(Drop(mem, s), own - {Get(mem, s).addr}, root, low, Shift(bias - {s}, own, root, s.table, 1))
  {
    var c := Get(mem, s).addr;
    FactsOf(mem, own, root, low, bias, low, 0);
    FactsOf(mem, own, root, low, bias, s.table, s.index);
    forall t, k | t in Drop(mem, s) && 0 <= k < 512
      ensures Facts(Drop(mem, s), own - {c}, root, low, Shift(bias - {s}, own, root, s.table, 1), t, k)
    {
      FactsOf(mem, own, root, low, bias, t, k);
      DropEntry(mem, own, root, low, bias, s, t, k);
    }
    TreeOf(Drop(mem, s), own - {c}, root, low, Shift(bias - {s}, own, root, s.table, 1));
  }

  lemma DropEntry(mem: Tables, own: map<nat, Place>, root: nat, low: nat, bias: map<Slot, int>, s: Slot, t: nat, k: nat)
    requires Facts(mem, own, root, low, bias, s.table, s.index) && PointsDown(Get(mem, s), own[s.table].level)
    requires Twig(mem, own, low, Get(mem, s).addr)
    requires Facts(mem, own, root, low, bias, t, k) && t != Get(mem, s).addr
    ensures Facts(Drop(mem, s), own - {Get(mem, s).addr}, root, low, Shift(bias - {s}, own, root, s.table, 1), t, k)
  {
    CountSet(mem[s.table], s.index, EMPTY);
  }

  // ---------------------------------------------------------------- what the changes do to translation

  ghost predicate Under(own: map<nat, Place>, s: Slot, w: nat)
    requires s.table in own
  {
    At(w, own[s.table].level) == Position(own, s)
  }

  /** The walk to a page passes every table whose place is on the page's path. */
  lemma {:induction false} ViaTable(mem: Tables, own: map<nat, Place>, root: nat, low: nat, bias: map<Slot, int>,
                                    t: nat, w: nat)
    requires Tree(mem, own, root, low, bias) && t in mem && own[t].prefix == At(w, own[t].level + 1)
    ensures View(mem, 4, root, w) == View(mem, own[t].level, t, w)
    decreases 4 - own[t].level
  {
    FactsOf(mem, own, root, low, bias, t, 0);
    if t != root {
      var p := own[t].parent;
      FactsOf(mem, own, root, low, bias, p, own[t].prefix % 512);
      DivStep(w, own[p].level);
      ViaTable(mem, own, root, low, bias, p, w);
    }
  }

  /** Apart from slot s and the table it leads to, nothing is different. */
  ghost predicate Elsewhere(mem: Tables, mem': Tables, own: map<nat, Place>, s: Slot)
    requires s.table in own
  {
    forall t, k {:trigger mem[t][k]} :: t in mem && 0 <= k < |mem[t]| && Slot(t, k) != s
      && !(PointsDown(Get(mem, s), own[s.table].level) && t == Get(mem, s).addr)
      ==> t in mem' && |mem'[t]| == |mem[t]| && mem'[t][k] == mem[t][k]
  }

  lemma {:induction false} ElsewhereView(mem: Tables, mem': Tables, own: map<nat, Place>, root: nat, low: nat,
          bias: map<Slot, int>, s: Slot, level: nat, t: nat, w: nat)
    requires Tree(mem, own, root, low, bias) && InTree(mem, own, s) && Elsewhere(mem, mem', own, s) && !Under(own, s, w)
    requires t in mem && own[t].level == level && own[t].prefix == At(w, level + 1)
    requires PointsDown(Get(mem, s), own[s.table].level) ==>
      t != Get(mem, s).addr && Get(mem, s).addr in own && Above(own, Get(mem, s).addr) == s
    ensures View(mem', level, t, w) == View(mem, level, t, w)
  {
    FactsOf(mem, own, root, low, bias, t, Index(w, level));
    NotThere(own, s, level, t, w);
    var e := mem[t][Index(w, level)];
    if PointsDown(e, level) {
      ElsewhereView(mem, mem', own, root, low, bias, s, level - 1, e.addr, w);
    }
  }

  lemma NotThere(own: map<nat, Place>, s: Slot, level: nat, t: nat, w: nat)
    requires s.table in own && t in own && 1 <= level <= 4 && own[t].level == level
      && own[t].prefix == At(w, level + 1) && !Under(own, s, w)
    ensures Slot(t, Index(w, level)) != s && Position(own, Slot(t, Index(w, level))) == At(w, level)
  {
    DivStep(w, level);
  }

  /** What entry e of a table at this level makes of page w. */
  ghost function Through(mem: Tables, e: Entry, level: nat, w: nat): Option<Leaf> {
    if !e.p then None
    else if PointsDown(e, level) then View(mem, level - 1, e.addr, w)
    else Some(Leaf(level, e.addr, e.ps, e.pmnt, e.attr))
  }

  lemma ViewUnder(mem: Tables, own: map<nat, Place>, root: nat, low: nat, bias: map<Slot, int>, s: Slot, w: nat)
    requires Tree(mem, own, root, low, bias) && InTree(mem, own, s) && Under(own, s, w)
    ensures View(mem, 4, root, w) == Through(mem, Get(mem, s), own[s.table].level, w)
  {
    FactsOf(mem, own, root, low, bias, s.table, s.index);
    UnderIndex(w, own[s.table].level, own[s.table].prefix, s.index);
    ViaTable(mem, own, root, low, bias, s.table, w);
  }

  lemma UnderIndex(w: nat, level: nat, prefix: nat, index: nat)
    requires 1 <= level <= 4 && index < 512 && At(w, level) == prefix * 512 + index
    ensures prefix == At(w, level + 1) && index == Index(w, level)
  {
    DivStep(w, level);
  }

  lemma ViewNotUnder(mem: Tables, mem': Tables, own: map<nat, Place>, root: nat, low: nat, bias: map<Slot, int>,
                     s: Slot, w: nat)
    requires Tree(mem, own, root, low, bias) && InTree(mem, own, s) && Elsewhere(mem, mem', own, s)
      && !Under(own, s, w) && w < Span(5)
    ensures View(mem', 4, root, w) == View(mem, 4, root, w)
  {
    FactsOf(mem, own, root, low, bias, s.table, s.index);
    ElsewhereView(mem, mem', own, root, low, bias, s, 4, root, w);
  }

  lemma FillView(mem: Tables, own: map<nat, Place>, root: nat, low: nat, bias: map<Slot, int>, s: Slot, e: Entry,
                 w: nat)
    requires Tree(mem, own, root, low, bias) && InTree(mem, own, s) && !Get(mem, s).p && w < Span(5)
    requires e.p && !e.pmnt && !PointsDown(e, own[s.table].level)
    ensures View(Put(mem, s, e), 4, root, w)
         == if Under(own, s, w) then Some(Leaf(own[s.table].level, e.addr, e.ps, e.pmnt, e.attr))
         else View(mem, 4, root, w)
    ensures Under(own, s, w) ==> View(mem, 4, root, w) == None
  {
    if Under(own, s, w) {
      FillTree(mem, own, root, low, bias, s, e);
      ViewUnder(mem, own, root, low, bias, s, w);
      ViewUnder(Put(mem, s, e), own, root, low, Shift(bias, own, root, s.table, -1), s, w);
    } else {
      PutElsewhere(mem, own, s, e);
      ViewNotUnder(mem, Put(mem, s, e), own, root, low, bias, s, w);
    }
  }

  lemma PutElsewhere(mem: Tables, own: map<nat, Place>, s: Slot, e: Entry)
    requires InTree(mem, own, s)
    ensures Elsewhere(mem, Put(mem, s, e), own, s)
    ensures Elsewhere(mem, Drop(mem, s), own, s) || !PointsDown(Get(mem, s), own[s.table].level)
  {
  }

  lemma AttachElsewhere(mem: Tables, own: map<nat, Place>, s: Slot, e: Entry, blank: Table)
    requires InTree(mem, own, s) && e.addr !in mem
    ensures Elsewhere(mem, Attach(mem, s, e, blank), own, s)
  {
  }

  /** A new empty table translates nothing. */
  lemma AttachView(mem: Tables, own: map<nat, Place>, root: nat, low: nat, bias: map<Slot, int>, s: Slot, e: Entry,
                   blank: Table, w: nat)
    requires Tree(mem, own, root, low, bias) && Attaches(mem, own, bias, s, e, blank) && w < Span(5)
    ensures View(Attach(mem, s, e, blank), 4, root, w) == View(mem, 4, root, w)
  {
    var mem' := Attach(mem, s, e, blank);
    if Under(own, s, w) {
      AttachTree(mem, own, root, low, bias, s, e, blank);
      ViewUnder(mem, own, root, low, bias, s, w);
      ViewUnder(mem', Housed(own, s, e.addr), root, low,
                Shift(bias, own, root, s.table, -1)[s := 1], s, w);
      assert !mem'[e.addr][Index(w, own[s.table].level - 1)].p;
    } else {
      AttachElsewhere(mem, own, s, e, blank);
      ViewNotUnder(mem, mem', own, root, low, bias, s, w);
    }
  }

  /** Dropping a table takes away the translations of its pages, and no others. */
  lemma DropView(mem: Tables, own: map<nat, Place>, root: nat, low: nat, bias: map<Slot, int>, s: Slot, w: nat)
    requires Tree(mem, own, root, low, bias) && InTree(mem, own, s) && PointsDown(Get(mem, s), own[s.table].level)
    requires Twig(mem, own, low, Get(mem, s).addr) && w < Span(5)
    ensures View(Drop(mem, s), 4, root, w) == if Under(own, s, w) then None else View(mem, 4, root, w)
  {
    if Under(own, s, w) {
      DropTree(mem, own, root, low, bias, s);
      FactsOf(mem, own, root, low, bias, s.table, s.index);
      ViewUnder(Drop(mem, s), own - {Get(mem, s).addr}, root, low, Shift(bias - {s}, own, root, s.table, 1), s, w);
    } else {
      PutElsewhere(mem, own, s, EMPTY);
      ViewNotUnder(mem, Drop(mem, s), own, root, low, bias, s, w);
    }
  }

  // ---------------------------------------------------------------- trees without counts

  /** What is left of a well-formed tree when the numbers of sub-entries cannot be relied upon: tables hang at most
      once, and every entry that leads on leads to a table one level down. */
  ghost predicate Linked(mem: Tables, own: map<nat, Place>, root: nat) {
    && root in own && own[root] == Place(4, 0, root)
    && forall t {:trigger LinkOk(mem, own, root, t)} :: t in own ==> LinkOk(mem, own, root, t)
  }

  ghost predicate LinkOk(mem: Tables, own: map<nat, Place>, root: nat, t: nat)
    requires t in own
  {
    && t in mem && |mem[t]| == 512 && 1 <= own[t].level <= 4 && (t != root ==> Hangs(mem, own, t))
    && forall k {:trigger LeadsDown(mem, own, t, k)} :: 0 <= k < 512 ==> LeadsDown(mem, own, t, k)
  }

  ghost predicate LeadsDown(mem: Tables, own: map<nat, Place>, t: nat, k: nat)
    requires t in own && t in mem && k < |mem[t]|
  {
    PointsDown(mem[t][k], own[t].level) ==>
      mem[t][k].addr in own && own[mem[t][k].addr] == Place(own[t].level - 1, own[t].prefix * 512 + k, t)
  }

  /** What Linked says of one entry, of the table it stands in, and of the table it leads to. */
  ghost predicate Links(mem: Tables, own: map<nat, Place>, root: nat, t: nat, k: nat) {
    && t in mem && t in own && k < 512 == |mem[t]| && 1 <= own[t].level <= 4 && (t != root ==> Hangs(mem, own, t))
    && (PointsDown(mem[t][k], own[t].level) ==>
          var c := mem[t][k].addr;
          && c in mem && |mem[c]| == 512 && c in own && own[c] == Place(own[t].level - 1, own[t].prefix * 512 + k, t)
          && Above(own, c) == Slot(t, k) && c != root && c != t)
  }

  lemma LinksOf(mem: Tables, own: map<nat, Place>, root: nat, t: nat, k: nat)
    requires Linked(mem, own, root) && t in own && k < 512
    ensures Links(mem, own, root, t, k)
  {
    assert LinkOk(mem, own, root, t);
    assert LeadsDown(mem, own, t, k);
    if PointsDown(mem[t][k], own[t].level) {
      assert LinkOk(mem, own, root, mem[t][k].addr);
    }
  }

  lemma LinkedOf(mem: Tables, own: map<nat, Place>, root: nat)
    requires root in own && own[root] == Place(4, 0, root)
    requires forall t, k {:trigger Links(mem, own, root, t, k)} :: t in own && 0 <= k < 512 ==>
      Links(mem, own, root, t, k)
    ensures Linked(mem, own, root)
  {
    forall t | t in own ensures LinkOk(mem, own, root, t) {
      assert Links(mem, own, root, t, 0);
      forall k | 0 <= k < 512 ensures LeadsDown(mem, own, t, k) {
        assert Links(mem, own, root, t, k);
      }
    }
  }

  lemma TreeIsLinked(mem: Tables, own: map<nat, Place>, root: nat, low: nat, bias: map<Slot, int>)
    requires Tree(mem, own, root, low, bias)
    ensures Linked(mem, own, root)
  {
    forall t, k | t in own && 0 <= k < 512 ensures Links(mem, own, root, t, k) {
      FactsOf(mem, own, root, low, bias, t, k);
      if PointsDown(mem[t][k], own[t].level) {
        FactsOf(mem, own, root, low, bias, mem[t][k].addr, 0);
      }
    }
    LinkedOf(mem, own, root);
  }

  /** No two tables have the same place. */
  lemma {:induction false} PlaceUnique(mem: Tables, own: map<nat, Place>, root: nat, t: nat, u: nat)
    requires Linked(mem, own, root) && t in own && u in own
    requires own[t].level == own[u].level && own[t].prefix == own[u].prefix
    ensures t == u
    decreases 4 - own[t].level
  {
    LinksOf(mem, own, root, t, 0);
    LinksOf(mem, own, root, u, 0);
    if t != root {
      LinksOf(mem, own, root, own[t].parent, 0);
      if u != root {
        PlaceUnique(mem, own, root, own[t].parent, own[u].parent);
      }
    } else if u != root {
      LinksOf(mem, own, root, own[u].parent, 0);
    }
  }

  /** Entries are as they were, but for their records and counts, or gone. */
  ghost predicate Shrunk(mem: Tables, mem': Tables) {
    forall t {:trigger mem'[t]} :: t in mem' ==>
      t in mem && |mem'[t]| == |mem[t]| && forall k {:trigger mem'[t][k]} :: 0 <= k < |mem[t]| ==>
        Fewer(mem[t][k], mem'[t][k])
  }

  predicate Fewer(e: Entry, e': Entry) {
    !e'.p || e' == e.(a := e'.a, acc := e'.acc, sub := e'.sub)
  }

  lemma ShrunkOn(a: Tables, b: Tables, c: Tables)
    requires Shrunk(a, b) && Shrunk(b, c)
    ensures Shrunk(a, c)
  {
    forall t | t in c
      ensures t in a && |c[t]| == |a[t]| && forall k {:trigger c[t][k]} :: 0 <= k < |a[t]| ==> Fewer(a[t][k], c[t][k])
    {
      forall k | 0 <= k < |a[t]| ensures Fewer(a[t][k], c[t][k]) {
        assert Fewer(b[t][k], c[t][k]);
        assert Fewer(a[t][k], b[t][k]);
      }
    }
  }

  /** Where entries have only gone, translations have only gone. */
  lemma {:induction false} ShrunkView(mem: Tables, mem': Tables, level: nat, t: nat, v: nat)
    requires Shrunk(mem, mem')
    ensures View(mem', level, t, v) == None || View(mem', level, t, v) == View(mem, level, t, v)
  {
    if level > 0 && t in mem' && |mem'[t]| == 512 {
      assert Fewer(mem[t][Index(v, level)], mem'[t][Index(v, level)]);
      if PointsDown(mem'[t][Index(v, level)], level) {
        ShrunkView(mem, mem', level - 1, mem'[t][Index(v, level)].addr, v);
      }
    }
  }
}
