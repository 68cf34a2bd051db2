/** The SMM page-fault handler of X64/PageTbl.c: it maps pages on demand out of a small pool of pages, and
    reclaims the least recently used table when the pool is empty.  Addresses are counted in 4KB pages. */
module DemandPaging {
  import opened Common
  import opened Sums
  import opened PagingTree
  import opened PageReclaim

  const PAGE_TABLE_PAGES: nat := 8

  /** The RW bit, which every entry gets, and a table entry no other beside P, A and its access record. */
  const RW: nat := 2

  function Writable(attr: nat): nat { if attr / RW % 2 == 0 then attr + RW else attr }

  function TableEntry(page: nat): Entry { Entry(true, false, false, true, 7, 0, page, RW) }

  /** The leaf entry the handler fills in for page v. */
  function LeafEntry(v: nat, end: nat, attr: nat): Entry {
    Entry(true, false, end > 1, true, 0, 0, Base(v, end), Writable(attr))
  }

  /** Where a walk is: at table t of this level; `upper` is the deepest entry found present on the way. */
  datatype Walker = Walker(m: Memory, level: nat, t: nat, upper: Option<Slot>)

  /** The memory once AllocPage has seen to it that the pool is not empty. */
  function Supplied(m: Memory, root: nat): Memory { if |m.pool| == 0 then Reclaim(m, root) else m }

  /** The page is cleared and slot s leads to it.  A table that the reclaim has released is no table any more: if it
      is the very page handed out, it leads to itself; else the write goes to a page of the pool. */
  function Stored(mem: Tables, s: Slot, page: nat): Tables {
    if s.table == page && s.index < 512 then mem[page := Blank()[s.index := TableEntry(page)]]
    else if s.table in mem && s.index < |mem[s.table]| then Attach(mem, s, TableEntry(page), Blank())
    else mem[page := Blank()]
  }

  /** The first page of the pool becomes the table on the way to page v. */
  function NewTable(w: Walker, v: nat): Walker
    requires |w.m.pool| > 0 && w.level > 0
  {
    var page := w.m.pool[0];
    Walker(Memory(Stored(w.m.mem, Slot(w.t, Index(v, w.level)), page), w.m.pool[1..]), w.level - 1, page, w.upper)
  }

  /** One level of the walk to page v: mark the entry on the way, or put a new table there. */
  function Down(w: Walker, root: nat, v: nat): Walker {
    var s := Slot(w.t, Index(v, w.level));
    if w.level == 0 || w.t !in w.m.mem || |w.m.mem[w.t]| != 512 then w
    else if Get(w.m.mem, s).p then
      var e := Get(w.m.mem, s).(a := true, acc := 7);
      Walker(w.m.(mem := Put(w.m.mem, s, e)), w.level - 1, e.addr, Some(s))
    else if |Supplied(w.m, root).pool| == 0 then w
    else NewTable(w.(m := Supplied(w.m, root)), v)
  }

  /** The path to page v is free: nothing is mapped on it, and no entry stands where the new one goes. */
  predicate Clear(mem: Tables, level: nat, t: nat, v: nat, end: nat) {
    t in mem && |mem[t]| == 512 &&
    var e := mem[t][Index(v, level)];
    if level <= end then !e.p else e.p ==> PointsDown(e, level) && Clear(mem, level - 1, e.addr, v, end)
  }

  /** Tables missing on the path to page v. */
  function Missing(mem: Tables, level: nat, t: nat, v: nat, end: nat): nat {
    if level <= end || t !in mem || |mem[t]| != 512 then 0
    else if mem[t][Index(v, level)].p then Missing(mem, level - 1, mem[t][Index(v, level)].addr, v, end)
    else level - end
  }

  /** The tables on the way to page v, from table t down to the level `stop`. */
  function Path(mem: Tables, level: nat, t: nat, v: nat, stop: nat): set<nat> {
    if level <= stop || t !in mem || |mem[t]| != 512 || !PointsDown(mem[t][Index(v, level)], level) then {t}
    else {t} + Path(mem, level - 1, mem[t][Index(v, level)].addr, v, stop)
  }

  /** Should the walk need a page here while the pool is empty, the reclaim releases no table on its way. */
  ghost predicate Spared(x: Walker, root: nat, v: nat) {
    || |x.m.pool| > 0 || Get(x.m.mem, Slot(x.t, Index(v, x.level))).p
    || Spares(Reclaim(x.m, root).pool, Path(x.m.mem, 4, root, v, x.level))
  }

  /** No reclaim on the rest of the walk releases a table on the way. */
  ghost predicate AllSpared(x: Walker, root: nat, v: nat, end: nat)
    decreases x.level
  {
    x.level <= end || (
      Spared(x, root, v) && (Down(x, root, v).level < x.level ==> AllSpared(Down(x, root, v), root, v, end)))
  }

  /** What the sub-entries numbers are ahead of and behind during a walk: the table reached is about to get an
      entry, and the deepest entry found on the way is about to be told of it. */
  ghost function Pending(own: map<nat, Place>, root: nat, t: nat, upper: Option<Slot>): map<Slot, int>
    requires t in own
  {
    Shift(Behind(upper), own, root, t, 1)
  }

  // ---------------------------------------------------------------- the walk

  /** The entry that leads to table t, if any does. */
  ghost function Over(own: map<nat, Place>, root: nat, t: nat): Option<Slot>
    requires t in own
  {
    if t == root then None else Some(Above(own, t))
  }

  ghost predicate IsBlank(t: Table) {
    forall k {:trigger t[k]} :: 0 <= k < |t| ==> !t[k].p
  }

  /** Where the walk is: at a table found, with the entry that leads to it; or at a new, empty one, with the
      deepest entry found. */
  ghost predicate Standing(x: Walker, own: map<nat, Place>, root: nat, v: nat) {
    && 1 <= x.level <= 4 && x.t in x.m.mem && x.t in own && |x.m.mem[x.t]| == 512
    && own[x.t].level == x.level && own[x.t].prefix == At(v, x.level + 1)
    && (x.upper == Over(own, root, x.t) || IsBlank(x.m.mem[x.t]))
    && (x.upper.Some? ==> (
        && InTree(x.m.mem, own, x.upper.value) && own[x.upper.value.table].level > x.level
        && Under(own, x.upper.value, v)
        && PointsDown(Get(x.m.mem, x.upper.value), own[x.upper.value.table].level)))
  }

  /** What holds of a walk to page v while it goes down. */
  ghost predicate Walking(x: Walker, own: map<nat, Place>, root: nat, low: nat, v: nat, end: nat) {
    && 1 <= end <= x.level && Standing(x, own, root, v)
    && Tree(x.m.mem, own, root, low, Pending(own, root, x.t, x.upper)) && Apart(x.m.mem, x.m.pool)
    && Clear(x.m.mem, x.level, x.t, v, end)
  }

  lemma DownAlong(x: Walker, own: map<nat, Place>, root: nat, low: nat, v: nat, end: nat)
    requires Walking(x, own, root, low, v, end) && end < x.level && Get(x.m.mem, Slot(x.t, Index(v, x.level))).p
    ensures Walking(Down(x, root, v), own, root, low, v, end)
    ensures SameShape(x.m.mem, Down(x, root, v).m.mem) && Down(x, root, v).m.pool == x.m.pool
      && Down(x, root, v).level == x.level - 1
  {
    var k := Index(v, x.level);
    FactsOf(x.m.mem, own, root, low, Pending(own, root, x.t, x.upper), x.t, k);
    MarkShape(x.m.mem, Slot(x.t, k));
    AlongTree(x.m.mem, Down(x, root, v).m.mem, own, root, low, x.t, x.m.mem[x.t][k].addr, k);
    FactsOf(x.m.mem, own, root, low, Pending(own, root, x.t, x.upper), x.m.mem[x.t][k].addr, 0);
    AlongStanding(x, own, root, low, Pending(own, root, x.t, x.upper), v);
    ShapeClear(x.m.mem, Down(x, root, v).m.mem, x.level - 1, x.m.mem[x.t][k].addr, v, end);
  }

  /** Marking an entry as accessed leaves the shape alone. */
  lemma MarkShape(mem: Tables, s: Slot)
    requires s.table in mem && s.index < |mem[s.table]|
    ensures SameShape(mem, Put(mem, s, Get(mem, s).(a := true, acc := 7)))
  {
  }

  lemma AlongTree(mem: Tables, mem': Tables, own: map<nat, Place>, root: nat, low: nat, t: nat, c: nat, k: nat)
    requires t in own && Tree(mem, own, root, low, Pending(own, root, t, Over(own, root, t))) && SameShape(mem, mem')
    requires c in own && c != root && Above(own, c) == Slot(t, k)
    ensures Tree(mem', own, root, low, Pending(own, root, c, Some(Slot(t, k))))
  {
    ShapeTree(mem, mem', own, root, low, Pending(own, root, t, Over(own, root, t)));
    AlongBias(own, root, t, c, k);
    TreeBias(mem', own, root, low, Pending(own, root, t, Over(own, root, t)), Pending(own, root, c, Some(Slot(t, k))));
  }

  lemma AlongBias(own: map<nat, Place>, root: nat, t: nat, c: nat, k: nat)
    requires t in own && c in own && c != root && Above(own, c) == Slot(t, k)
    ensures SameBias(Pending(own, root, t, Over(own, root, t)), Pending(own, root, c, Some(Slot(t, k))))
  {
  }

  lemma AlongStanding(x: Walker, own: map<nat, Place>, root: nat, low: nat, bias: map<Slot, int>, v: nat)
    requires Standing(x, own, root, v) && Get(x.m.mem, Slot(x.t, Index(v, x.level))).p
    requires Facts(x.m.mem, own, root, low, bias, x.t, Index(v, x.level))
    requires PointsDown(Get(x.m.mem, Slot(x.t, Index(v, x.level))), x.level)
    requires Down(x, root, v).t in Down(x, root, v).m.mem && |Down(x, root, v).m.mem[Down(x, root, v).t]| == 512
    ensures Standing(Down(x, root, v), own, root, v)
  {
    DivStep(v, x.level);
  }

  lemma {:induction false} ShapeClear(mem: Tables, mem': Tables, level: nat, t: nat, v: nat, end: nat)
    requires SameShape(mem, mem')
    ensures Clear(mem', level, t, v, end) == Clear(mem, level, t, v, end)
    ensures Missing(mem', level, t, v, end) == Missing(mem, level, t, v, end)
  {
    if t in mem && |mem[t]| == 512 {
      var e := mem'[t][Index(v, level)];
      assert e == mem[t][Index(v, level)].(a := e.a, acc := e.acc);
      if level > end && e.p {
        ShapeClear(mem, mem', level - 1, e.addr, v, end);
      }
    }
  }

  lemma DownNew(x: Walker, own: map<nat, Place>, root: nat, low: nat, v: nat, end: nat)
    requires Walking(x, own, root, low, v, end) && end < x.level && !Get(x.m.mem, Slot(x.t, Index(v, x.level))).p
    requires |x.m.pool| > 0
    ensures Walking(Down(x, root, v), Housed(own, Slot(x.t, Index(v, x.level)), x.m.pool[0]), root, low, v, end)
    ensures Down(x, root, v).m.pool == x.m.pool[1..] && Down(x, root, v).level == x.level - 1
    ensures Down(x, root, v).m.mem.Keys == x.m.mem.Keys + {x.m.pool[0]}
  {
    NewTree(x, own, root, low, v);
    NewStanding(x, own, root, v);
    NewRest(x, root, v, end);
  }

  lemma NewTree(x: Walker, own: map<nat, Place>, root: nat, low: nat, v: nat)
    requires Standing(x, own, root, v) && x.level > 1 && !Get(x.m.mem, Slot(x.t, Index(v, x.level))).p
    requires Tree(x.m.mem, own, root, low, Pending(own, root, x.t, x.upper)) && |x.m.pool| > 0
      && x.m.pool[0] !in x.m.mem
    ensures Tree(Down(x, root, v).m.mem, Housed(own, Slot(x.t, Index(v, x.level)), x.m.pool[0]), root, low,
                 Pending(Housed(own, Slot(x.t, Index(v, x.level)), x.m.pool[0]), root, x.m.pool[0], x.upper))
  {
    FactsOf(x.m.mem, own, root, low, Pending(own, root, x.t, x.upper), x.t, Index(v, x.level));
    HouseTree(x.m.mem, own, root, low, x.t, Index(v, x.level), x.m.pool[0], x.upper);
  }

  lemma HouseTree(mem: Tables, own: map<nat, Place>, root: nat, low: nat, t: nat, k: nat, page: nat,
                  upper: Option<Slot>)
    requires t in mem && t in own && own[t].level > 1 && k < 512 == |mem[t]| && !mem[t][k].p && page !in mem
    requires Tree(mem, own, root, low, Pending(own, root, t, upper))
    requires upper.Some? ==> upper.value.table in own && own[upper.value.table].level > own[t].level
    requires t != root ==> own[t].parent in own && own[own[t].parent].level == own[t].level + 1
    ensures Tree(Attach(mem, Slot(t, k), TableEntry(page), Blank()), Housed(own, Slot(t, k), page), root, low,
                 Pending(Housed(own, Slot(t, k), page), root, page, upper))
  {
    var bias := Pending(own, root, t, upper);
    NotPending(own, root, t, k, upper);
    AttachTree(mem, own, root, low, bias, Slot(t, k), TableEntry(page), Blank());
    NewBias(own, root, t, k, page, upper);
    TreeBias(Attach(mem, Slot(t, k), TableEntry(page), Blank()), Housed(own, Slot(t, k), page), root, low,
             Shift(bias, own, root, t, -1)[Slot(t, k) := 1], Pending(Housed(own, Slot(t, k), page), root, page, upper));
  }

  lemma NotPending(own: map<nat, Place>, root: nat, t: nat, k: nat, upper: Option<Slot>)
    requires t in own && 0 < own[t].level
    requires upper.Some? ==> upper.value.table in own && own[upper.value.table].level > own[t].level
    requires t != root ==> own[t].parent in own && own[own[t].parent].level == own[t].level + 1
    ensures Slot(t, k) !in Pending(own, root, t, upper)
  {
  }

  lemma NewRest(x: Walker, root: nat, v: nat, end: nat)
    requires 1 <= end < x.level && x.t in x.m.mem && |x.m.mem[x.t]| == 512 && !x.m.mem[x.t][Index(v, x.level)].p
    requires Apart(x.m.mem, x.m.pool) && |x.m.pool| > 0
    ensures Apart(Down(x, root, v).m.mem, Down(x, root, v).m.pool)
    ensures var y := Down(x, root, v); Clear(y.m.mem, y.level, y.t, v, end)
    ensures Down(x, root, v).m.mem.Keys == x.m.mem.Keys + {x.m.pool[0]}
  {
    var y := Down(x, root, v);
    assert !y.m.mem[y.t][Index(v, y.level)].p;
  }

  lemma NewBias(own: map<nat, Place>, root: nat, t: nat, k: nat, page: nat, upper: Option<Slot>)
    requires t in own && 0 < own[t].level && page !in own && k < 512 && page != root
    requires upper.Some? ==> upper.value.table in own && own[upper.value.table].level > own[t].level
    requires t != root ==> own[t].parent in own && own[own[t].parent].level == own[t].level + 1
    ensures SameBias(Shift(Pending(own, root, t, upper), own, root, t, -1)[Slot(t, k) := 1],
                     Pending(Housed(own, Slot(t, k), page), root, page, upper))
  {
  }

  lemma NewStanding(x: Walker, own: map<nat, Place>, root: nat, v: nat)
    requires Standing(x, own, root, v) && !Get(x.m.mem, Slot(x.t, Index(v, x.level))).p && |x.m.pool| > 0 && x.level > 1
    requires x.m.pool[0] !in x.m.mem && own.Keys == x.m.mem.Keys
    ensures Standing(Down(x, root, v), Housed(own, Slot(x.t, Index(v, x.level)), x.m.pool[0]), root, v)
  {
    DivStep(v, x.level);
  }

  /** A step that needs no reclaim translates nothing new and loses no page. */
  lemma DownKeeps(x: Walker, own: map<nat, Place>, root: nat, low: nat, v: nat, end: nat)
    requires Walking(x, own, root, low, v, end) && end < x.level
    requires Get(x.m.mem, Slot(x.t, Index(v, x.level))).p || |x.m.pool| > 0
    ensures SameView(x.m.mem, Down(x, root, v).m.mem, root)
    ensures Pages(Down(x, root, v).m.mem, Down(x, root, v).m.pool) == Pages(x.m.mem, x.m.pool)
  {
    var s := Slot(x.t, Index(v, x.level));
    if Get(x.m.mem, s).p {
      MarkShape(x.m.mem, s);
      forall w: nat | w < Span(5) ensures View(Down(x, root, v).m.mem, 4, root, w) == View(x.m.mem, 4, root, w) {
        ShapeView(x.m.mem, Down(x, root, v).m.mem, 4, root, w);
      }
    } else {
      NewRest(x, root, v, end);
      forall w: nat | w < Span(5) ensures View(Down(x, root, v).m.mem, 4, root, w) == View(x.m.mem, 4, root, w) {
        NewView(x, own, root, low, v, w);
      }
      PoolSplit(x.m.pool);
    }
  }

  lemma NewView(x: Walker, own: map<nat, Place>, root: nat, low: nat, v: nat, w: nat)
    requires Standing(x, own, root, v) && x.level > 1 && !Get(x.m.mem, Slot(x.t, Index(v, x.level))).p && w < Span(5)
    requires Tree(x.m.mem, own, root, low, Pending(own, root, x.t, x.upper)) && |x.m.pool| > 0
      && x.m.pool[0] !in x.m.mem
    ensures View(Down(x, root, v).m.mem, 4, root, w) == View(x.m.mem, 4, root, w)
  {
    FactsOf(x.m.mem, own, root, low, Pending(own, root, x.t, x.upper), x.t, Index(v, x.level));
    NotPending(own, root, x.t, Index(v, x.level), x.upper);
    AttachView(x.m.mem, own, root, low, Pending(own, root, x.t, x.upper), Slot(x.t, Index(v, x.level)),
               TableEntry(x.m.pool[0]), Blank(), w);
  }

  lemma PoolSplit(pool: seq<nat>)
    requires |pool| > 0
    ensures (set p | p in pool) == {pool[0]} + set p | p in pool[1..]
  {
    assert pool == [pool[0]] + pool[1..];
  }

  /** The entry that is to be told of a new sub-entry, if any. */
  ghost function Behind(upper: Option<Slot>): map<Slot, int> {
    if upper.None? then map[] else map[upper.value := -1]
  }

  function Filled(x: Walker, v: nat, end: nat, attr: nat): Tables
    requires x.t in x.m.mem && |x.m.mem[x.t]| == 512
  {
    Put(x.m.mem, Slot(x.t, Index(v, x.level)), LeafEntry(v, end, attr))
  }

  function Told(mem: Tables, upper: Option<Slot>): Tables
    requires upper.Some? ==> upper.value.table in mem && upper.value.index < |mem[upper.value.table]|
  {
    if upper.None? then mem else SetSub(mem, upper.value, Get(mem, upper.value).sub + 1)
  }

  /** The last step: the leaf entry is filled in and the deepest entry found is told of the new sub-entry. */
  function Finish(x: Walker, v: nat, end: nat, attr: nat): Tables
    requires x.t in x.m.mem && |x.m.mem[x.t]| == 512
    requires x.upper.Some? ==> x.upper.value.table in x.m.mem && x.upper.value.index < |x.m.mem[x.upper.value.table]|
  {
    Told(Filled(x, v, end, attr), x.upper)
  }

  lemma FilledTree(mem: Tables, own: map<nat, Place>, root: nat, low: nat, t: nat, k: nat, upper: Option<Slot>,
                   e: Entry)
    requires t in own && Tree(mem, own, root, low, Pending(own, root, t, upper)) && InTree(mem, own, Slot(t, k))
      && !mem[t][k].p
    requires e.p && !e.pmnt && !PointsDown(e, own[t].level)
    ensures Tree(Put(mem, Slot(t, k), e), own, root, low, Behind(upper))
  {
    FillTree(mem, own, root, low, Pending(own, root, t, upper), Slot(t, k), e);
    FilledBias(own, root, t, upper);
    TreeBias(Put(mem, Slot(t, k), e), own, root, low, Shift(Pending(own, root, t, upper), own, root, t, -1),
      Behind(upper));
  }

  lemma FilledBias(own: map<nat, Place>, root: nat, t: nat, upper: Option<Slot>)
    requires t in own
    ensures SameBias(Shift(Pending(own, root, t, upper), own, root, t, -1), Behind(upper))
  {
  }

  lemma ToldTree(mem: Tables, own: map<nat, Place>, root: nat, low: nat, upper: Option<Slot>)
    requires Tree(mem, own, root, low, Behind(upper))
    requires upper.Some? ==>
      InTree(mem, own, upper.value) && PointsDown(Get(mem, upper.value), own[upper.value.table].level)
    ensures Tree(Told(mem, upper), own, root, low, map[])
  {
    ToldIs(mem, upper);
    if upper.Some? {
      ToldSome(mem, own, root, low, upper, Get(mem, upper.value).sub + 1, Told(mem, upper));
    } else {
      ToldNone(mem, own, root, low, upper, Told(mem, upper));
    }
  }

  lemma ToldIs(mem: Tables, upper: Option<Slot>)
    requires upper.Some? ==> upper.value.table in mem && upper.value.index < |mem[upper.value.table]|
    ensures Told(mem, upper) == if upper.None? then mem else SetSub(mem, upper.value, Get(mem, upper.value).sub + 1)
  {
  }

  lemma ToldNone(mem: Tables, own: map<nat, Place>, root: nat, low: nat, upper: Option<Slot>, mem': Tables)
    requires Tree(mem, own, root, low, Behind(upper)) && upper.None? && mem' == mem
    ensures Tree(mem', own, root, low, map[])
  {
    TreeBias(mem, own, root, low, Behind(upper), map[]);
  }

  lemma ToldSome(mem: Tables, own: map<nat, Place>, root: nat, low: nat, upper: Option<Slot>, n: nat, mem': Tables)
    requires Tree(mem, own, root, low, Behind(upper)) && upper.Some? && n == Get(mem, upper.value).sub + 1
    requires InTree(mem, own, upper.value) && PointsDown(Get(mem, upper.value), own[upper.value.table].level)
    requires mem' == SetSub(mem, upper.value, n)
    ensures Tree(mem', own, root, low, map[])
  {
    var u := upper.value;
    SubTree(mem, own, root, low, Behind(upper), u, n);
    ToldBias(upper, n - Get(mem, u).sub);
    TreeBias(SetSub(mem, u, n), own, root, low, Ahead(Behind(upper), u, n - Get(mem, u).sub), map[]);
  }

  lemma ToldBias(upper: Option<Slot>, d: int)
    requires upper.Some? && d == 1
    ensures SameBias(Ahead(Behind(upper), upper.value, d), map[])
  {
  }

  lemma ToldView(mem: Tables, upper: Option<Slot>, root: nat, w: nat)
    requires upper.Some? ==> upper.value.table in mem && upper.value.index < |mem[upper.value.table]|
    ensures View(Told(mem, upper), 4, root, w) == View(mem, 4, root, w)
  {
    if upper.Some? {
      SubView(mem, upper.value, Get(mem, upper.value).sub + 1, 4, root, w);
    }
  }

  lemma FilledView(mem: Tables, own: map<nat, Place>, root: nat, low: nat, t: nat, upper: Option<Slot>, v: nat,
                   end: nat, attr: nat, w: nat)
    requires t in own && Tree(mem, own, root, low, Pending(own, root, t, upper)) && 1 <= end <= 3 && w < Span(5)
    requires t in mem && |mem[t]| == 512 && own[t].level == end && own[t].prefix == At(v, end + 1)
      && !mem[t][Index(v, end)].p
    ensures View(Put(mem, Slot(t, Index(v, end)), LeafEntry(v, end, attr)), 4, root, w)
         == if At(w, end) == At(v, end) then Some(Leaf(end, Base(v, end), end > 1, false, Writable(attr)))
         else View(mem, 4, root, w)
  {
    FillView(mem, own, root, low, Pending(own, root, t, upper), Slot(t, Index(v, end)), LeafEntry(v, end, attr), w);
    DivStep(v, end);
  }

  // ---------------------------------------------------------------- the handler

  /** The whole walk to page v. */
  function WalkTo(x: Walker, root: nat, v: nat, end: nat): Walker
    decreases x.level
  {
    if x.level <= end || Down(x, root, v).level >= x.level then x else WalkTo(Down(x, root, v), root, v, end)
  }

  /** Where every walk starts. */
  function AtRoot(m: Memory, root: nat): Walker { Walker(m, 4, root, None) }

  /** What serving one page makes of the memory. */
  function MapOne(m: Memory, root: nat, v: nat, end: nat, attr: nat): Memory {
    var x := WalkTo(AtRoot(m, root), root, v, end);
    if x.t !in x.m.mem || |x.m.mem[x.t]| != 512 then x.m
    else if x.upper.Some? && (x.upper.value.table !in x.m.mem || x.upper.value.index >= |x.m.mem[x.upper.value.table]|)
    then x.m.(mem := Filled(x, v, end, attr))
    else Memory(Finish(x, v, end, attr), x.m.pool)
  }

  /** What serving n pages makes of it. */
  function MapAll(m: Memory, root: nat, v: nat, end: nat, attr: nat, n: nat): Memory
    decreases n
  {
    if n == 0 then m else MapAll(MapOne(m, root, v, end, attr), root, v + Span(end), end, attr, n - 1)
  }

  /** SMM_PAGE_SIZE_TYPE. */
  datatype PageSize = SmmPageSize4K | SmmPageSize2M | SmmPageSize1G | Other

  /** What the platform asks for. */
  datatype Request = Request(size: PageSize, pages: nat, attr: nat)

  /** IA32_PG_NX. */
  const NX: nat := 0x8000_0000_0000_0000

  function SizeAsked(platform: Option<Request>): PageSize {
    if platform.None? || platform.value.size.Other? then SmmPageSize2M else platform.value.size
  }

  /** The level of the leaf entries to fill in. */
  function EndLevel(platform: Option<Request>): nat {
    match SizeAsked(platform)
    case SmmPageSize4K => 1
    case SmmPageSize1G => 3
    case _ => 2
  }

  function PagesAsked(platform: Option<Request>): nat {
    if platform.None? then 1 else if platform.value.pages > 512 then 512 else platform.value.pages
  }

  /** The attribute bits of the leaf entries, with NX where execute-disable is on. */
  function AttributeAsked(platform: Option<Request>, xd: bool): nat {
    var attr := if platform.None? then 0 else platform.value.attr;
    if xd && attr / NX % 2 == 0 then attr + NX else attr
  }

  /** What is to be mapped: without an answer of the platform one page of 2MB with no attribute bits; with one, as many
      pages as it says, at most 512, of the size it says, or of 2MB if that is none; execute-disabled where that is
      on. */
  ghost predicate Asks(platform: Option<Request>, xd: bool, end: nat, attr: nat, n: nat) {
    match platform
    case None => end == 2 && n == 1 && attr == if xd then 0x8000_0000_0000_0000 else 0
    case Some(r) =>
      && end == (if r.size == SmmPageSize4K then 1 else if r.size == SmmPageSize1G then 3 else 2)
      && n == (if r.pages <= 512 then r.pages else 512)
      && attr == if xd && r.attr / 0x8000_0000_0000_0000 % 2 == 0 then r.attr + 0x8000_0000_0000_0000 else r.attr
  }

  /** The first page under the entry at level `end` that page w is under. */
  function Base(w: nat, end: nat): nat {
    if end <= 1 then w else if end == 2 then w / 512 * 512 else w / 262144 * 262144
  }

  // ---------------------------------------------------------------- what becomes of the translations

  /** The entries released while walking to page v. */
  function StepVictims(x: Walker, root: nat, v: nat): seq<Victim> {
    if Get(x.m.mem, Slot(x.t, Index(v, x.level))).p || |x.m.pool| > 0 || Chosen(x.m, root).None? then []
    else [Chosen(x.m, root).value]
  }

  function WalkVictims(x: Walker, root: nat, v: nat, end: nat): seq<Victim>
    decreases x.level
  {
    if x.level <= end || Down(x, root, v).level >= x.level then []
    else StepVictims(x, root, v) + WalkVictims(Down(x, root, v), root, v, end)
  }

  /** The entries released while serving n pages, and those released after the j-th of them was served. */
  function Victims(m: Memory, root: nat, v: nat, end: nat, attr: nat, n: nat): seq<Victim>
    decreases n
  {
    if n == 0 then []
    else WalkVictims(AtRoot(m, root), root, v, end)
         + Victims(MapOne(m, root, v, end, attr), root, v + Span(end), end, attr, n - 1)
  }

  function LaterVictims(m: Memory, root: nat, v: nat, end: nat, attr: nat, n: nat, j: nat): seq<Victim>
    decreases n
  {
    if n == 0 then []
    else if j == 0 then Victims(MapOne(m, root, v, end, attr), root, v + Span(end), end, attr, n - 1)
    else LaterVictims(MapOne(m, root, v, end, attr), root, v + Span(end), end, attr, n - 1, j - 1)
  }

  ghost predicate Covered(cs: seq<Victim>, w: nat) {
    exists i :: 0 <= i < |cs| && Covers(cs[i], w)
  }

  lemma CoveredMore(cs: seq<Victim>, ds: seq<Victim>, w: nat)
    ensures Covered(cs + ds, w) <==> Covered(cs, w) || Covered(ds, w)
  {
    if i :| 0 <= i < |cs| && Covers(cs[i], w) {
      assert Covers((cs + ds)[i], w);
    }
    if i :| 0 <= i < |ds| && Covers(ds[i], w) {
      assert Covers((cs + ds)[|cs| + i], w);
    }
  }

  /** The pages under the entries cs are no longer translated; the others are as before. */
  ghost predicate AllLost(mem: Tables, mem': Tables, root: nat, cs: seq<Victim>) {
    forall w: nat {:trigger View(mem', 4, root, w)} :: w < Span(5) ==>
      View(mem', 4, root, w) == if Covered(cs, w) then None else View(mem, 4, root, w)
  }

  lemma AllLostOn(a: Tables, b: Tables, c: Tables, root: nat, cs: seq<Victim>, ds: seq<Victim>)
    requires AllLost(a, b, root, cs) && AllLost(b, c, root, ds)
    ensures AllLost(a, c, root, cs + ds)
  {
    forall w: nat | w < Span(5)
      ensures View(c, 4, root, w) == if Covered(cs + ds, w) then None else View(a, 4, root, w)
    {
      CoveredMore(cs, ds, w);
      assert View(b, 4, root, w) == View(b, 4, root, w);
    }
  }

  lemma AllLostOne(a: Tables, b: Tables, c: Tables, root: nat, v: Victim)
    requires Lost(a, b, root, v) && SameView(b, c, root)
    ensures AllLost(a, c, root, [v])
  {
    forall w: nat | w < Span(5) ensures View(c, 4, root, w) == if Covered([v], w) then None else View(a, 4, root, w) {
      assert Covered([v], w) <==> Covers([v][0], w);
      assert View(b, 4, root, w) == View(b, 4, root, w);
    }
  }

  /** The leaf entry that page w gets. */
  ghost function Identity(w: nat, end: nat, attr: nat): Leaf {
    Leaf(end, Base(w, end), end > 1, false, Writable(attr))
  }

  /** Page w is under one of the n entries from page v on. */
  ghost predicate Asked(v: nat, end: nat, n: nat, w: nat) { At(v, end) <= At(w, end) < At(v, end) + n }

  /** The pages of the n entries from page v on translate to themselves; all others as before. */
  ghost predicate Mapped(mem: Tables, mem': Tables, root: nat, v: nat, end: nat, attr: nat, n: nat) {
    forall w: nat {:trigger View(mem', 4, root, w)} :: w < Span(5) ==>
      View(mem', 4, root, w) == if Asked(v, end, n, w) then Some(Identity(w, end, attr)) else View(mem, 4, root, w)
  }

  /** The pages of the entry for page v translate to themselves; those under the entries cs are lost. */
  ghost predicate Served(mem: Tables, mem': Tables, root: nat, v: nat, end: nat, attr: nat, cs: seq<Victim>) {
    forall w: nat {:trigger View(mem', 4, root, w)} :: w < Span(5) ==>
      View(mem', 4, root, w) == if Asked(v, end, 1, w) then Some(Identity(w, end, attr))
                                else if Covered(cs, w) then None else View(mem, 4, root, w)
  }

  /** What page w translates to after n pages from v on have been served: one of them to itself, unless it was lost
      again in the service of a later one; any other as before, unless lost. */
  ghost function After(m: Memory, root: nat, v: nat, end: nat, attr: nat, n: nat, w: nat): Option<Leaf> {
    if Asked(v, end, n, w) then
      if Covered(LaterVictims(m, root, v, end, attr, n, At(w, end) - At(v, end)), w) then None
      else Some(Identity(w, end, attr))
    else if Covered(Victims(m, root, v, end, attr, n), w) then None else View(m.mem, 4, root, w)
  }

  // ---------------------------------------------------------------- one step

  /** There are more pages than the root and the masked table. */
  ghost predicate Stocked(m: Memory, root: nat, low: nat) {
    exists p :: p in Pages(m.mem, m.pool) && p != root && p != low
  }

  /** A tree with exact counts, and the pool apart from it. */
  ghost predicate Sound(m: Memory, own: map<nat, Place>, root: nat, low: nat) {
    Tree(m.mem, own, root, low, map[]) && Apart(m.mem, m.pool) && Stocked(m, root, low)
  }

  /** A present entry, or a pool that is not empty: no reclaim. */
  lemma PlainStep(x: Walker, own: map<nat, Place>, root: nat, low: nat, v: nat, end: nat)
    returns (own': map<nat, Place>)
    requires Walking(x, own, root, low, v, end) && end < x.level
    requires Get(x.m.mem, Slot(x.t, Index(v, x.level))).p || |x.m.pool| > 0
    ensures Walking(Down(x, root, v), own', root, low, v, end) && Down(x, root, v).level == x.level - 1
    ensures Pages(Down(x, root, v).m.mem, Down(x, root, v).m.pool) == Pages(x.m.mem, x.m.pool)
    ensures SameView(x.m.mem, Down(x, root, v).m.mem, root)
  {
    DownKeeps(x, own, root, low, v, end);
    if Get(x.m.mem, Slot(x.t, Index(v, x.level))).p {
      DownAlong(x, own, root, low, v, end);
      own' := own;
    } else {
      DownNew(x, own, root, low, v, end);
      own' := Housed(own, Slot(x.t, Index(v, x.level)), x.m.pool[0]);
    }
  }

  // ---------------------------------------------------------------- a reclaim in the middle of a walk

  /** A table on the way to page v is reached from every table above it on that way. */
  lemma {:induction false} Towards(mem: Tables, own: map<nat, Place>, root: nat, y: nat, u: nat, v: nat)
    requires Linked(mem, own, root) && y in own && u in own && own[u].level < own[y].level
    requires own[y].prefix == At(v, own[y].level + 1) && own[u].prefix == At(v, own[u].level + 1)
    ensures Links(mem, own, root, y, Index(v, own[y].level)) && PointsDown(mem[y][Index(v, own[y].level)], own[y].level)
    ensures own[mem[y][Index(v, own[y].level)].addr].prefix == At(v, own[y].level)
    decreases own[y].level - own[u].level
  {
    LinksOf(mem, own, root, y, Index(v, own[y].level));
    LinksOf(mem, own, root, root, 0);
    LinksOf(mem, own, root, u, 0);
    DivStep(v, own[y].level);
    var p := own[u].parent;
    DivStep(v, own[u].level + 1);
    if own[u].level + 1 == own[y].level {
      PlaceUnique(mem, own, root, p, y);
    } else {
      Towards(mem, own, root, y, p, v);
    }
  }

  lemma {:induction false} InPath(mem: Tables, own: map<nat, Place>, root: nat, y: nat, u: nat, v: nat, stop: nat)
    requires Linked(mem, own, root) && y in own && u in own && stop <= own[u].level <= own[y].level
    requires own[y].prefix == At(v, own[y].level + 1) && own[u].prefix == At(v, own[u].level + 1)
    ensures u in Path(mem, own[y].level, y, v, stop)
    decreases own[y].level
  {
    if own[u].level == own[y].level {
      PlaceUnique(mem, own, root, y, u);
    } else {
      Towards(mem, own, root, y, u, v);
      InPath(mem, own, root, mem[y][Index(v, own[y].level)].addr, u, v, stop);
    }
  }

  /** The counts that are ahead or behind belong to tables on the way. */
  lemma WayIsHeld(x: Walker, own: map<nat, Place>, root: nat, low: nat, v: nat, end: nat)
    requires Walking(x, own, root, low, v, end) && v < Span(5)
    ensures Held(x.m.mem, own, Pending(own, root, x.t, x.upper), Path(x.m.mem, 4, root, v, x.level))
    ensures x.t in Path(x.m.mem, 4, root, v, x.level)
    ensures x.upper.Some? ==> Get(x.m.mem, x.upper.value).addr in Path(x.m.mem, 4, root, v, x.level)
  {
    var bias := Pending(own, root, x.t, x.upper);
    TreeIsLinked(x.m.mem, own, root, low, bias);
    LinksOf(x.m.mem, own, root, root, 0);
    LinksOf(x.m.mem, own, root, x.t, 0);
    InPath(x.m.mem, own, root, root, x.t, v, x.level);
    if x.upper.Some? {
      var u := x.upper.value;
      LinksOf(x.m.mem, own, root, u.table, u.index);
      InPath(x.m.mem, own, root, root, Get(x.m.mem, u).addr, v, x.level);
    }
  }

  /** After a reclaim that spares its way the walk stands where it stood. */
  lemma ReclaimOnWay(x: Walker, own: map<nat, Place>, root: nat, low: nat, v: nat, end: nat)
    returns (own': map<nat, Place>)
    requires Walking(x, own, root, low, v, end) && end < x.level && v < Span(5)
    requires !Get(x.m.mem, Slot(x.t, Index(v, x.level))).p && |x.m.pool| == 0
    requires Spared(x, root, v) && Stocked(x.m, root, low)
    ensures var y := x.(m := Reclaim(x.m, root));
      && Walking(y, own', root, low, v, end) && !Get(y.m.mem, Slot(y.t, Index(v, y.level))).p && |y.m.pool| > 0
      && Pages(y.m.mem, y.m.pool) == Pages(x.m.mem, x.m.pool)
    ensures Chosen(x.m, root).Some? && Lost(x.m.mem, Reclaim(x.m, root).mem, root, Chosen(x.m, root).value)
    ensures Scannable(x.m.mem, root) && Ready(x.m, root)
  {
    var bias := Pending(own, root, x.t, x.upper);
    var keep := Path(x.m.mem, 4, root, v, x.level);
    WayIsHeld(x, own, root, low, v, end);
    var t :| t in Pages(x.m.mem, x.m.pool) && t != root && t != low;
    own' := ReclaimSound(x.m, own, root, low, bias, keep, t);
    ReclaimShrunk(x.m, root);
    StandsOn(x, own, own', root, low, v);
  }

  lemma StandsOn(x: Walker, own: map<nat, Place>, own': map<nat, Place>, root: nat, low: nat, v: nat)
    requires Standing(x, own, root, v) && Tree(x.m.mem, own, root, low, Pending(own, root, x.t, x.upper))
    requires !Get(x.m.mem, Slot(x.t, Index(v, x.level))).p
    requires Tree(Reclaim(x.m, root).mem, own', root, low, Pending(own, root, x.t, x.upper))
    requires Kept(own, own', Reclaim(x.m, root).pool) && Shrunk(x.m.mem, Reclaim(x.m, root).mem)
    requires x.t !in Reclaim(x.m, root).pool
    requires x.upper.Some? ==> Get(x.m.mem, x.upper.value).addr !in Reclaim(x.m, root).pool
    ensures x.t in own' && Pending(own', root, x.t, x.upper) == Pending(own, root, x.t, x.upper)
    ensures Standing(x.(m := Reclaim(x.m, root)), own', root, v)
    ensures !Get(Reclaim(x.m, root).mem, Slot(x.t, Index(v, x.level))).p
  {
    var bias := Pending(own, root, x.t, x.upper);
    var mem' := Reclaim(x.m, root).mem;
    FactsOf(mem', own', root, low, bias, x.t, 0);
    assert Fewer(x.m.mem[x.t][Index(v, x.level)], mem'[x.t][Index(v, x.level)]);
    if IsBlank(x.m.mem[x.t]) {
      forall k | 0 <= k < 512 ensures !mem'[x.t][k].p {
        assert Fewer(x.m.mem[x.t][k], mem'[x.t][k]);
      }
    }
    if x.upper.Some? {
      FactsOf(x.m.mem, own, root, low, bias, x.upper.value.table, x.upper.value.index);
      UpperStays(x.m.mem, mem', own, own', root, low, bias, x.upper.value);
    }
  }

  lemma UpperStays(mem: Tables, mem': Tables, own: map<nat, Place>, own': map<nat, Place>, root: nat, low: nat,
                   bias: map<Slot, int>, u: Slot)
    requires Tree(mem, own, root, low, bias) && Tree(mem', own', root, low, bias)
    requires InTree(mem, own, u) && PointsDown(Get(mem, u), own[u.table].level) && Get(mem, u).addr in own'
    requires forall t :: t in own' ==> t in own && own'[t] == own[t]
    ensures InTree(mem', own', u) && own'[u.table] == own[u.table] && PointsDown(Get(mem', u), own'[u.table].level)
  {
    var e := Get(mem, u).addr;
    FactsOf(mem, own, root, low, bias, u.table, u.index);
    FactsOf(mem', own', root, low, bias, e, 0);
  }

  /** One step of the walk: it keeps the tree but for the counts that are pending, and loses no page. */
  lemma DownStep(x: Walker, own: map<nat, Place>, root: nat, low: nat, v: nat, end: nat) returns (own': map<nat, Place>)
    requires Walking(x, own, root, low, v, end) && end < x.level && v < Span(5)
    requires Spared(x, root, v) && Stocked(x.m, root, low)
    ensures Walking(Down(x, root, v), own', root, low, v, end) && Down(x, root, v).level == x.level - 1
    ensures Pages(Down(x, root, v).m.mem, Down(x, root, v).m.pool) == Pages(x.m.mem, x.m.pool)
    ensures AllLost(x.m.mem, Down(x, root, v).m.mem, root, StepVictims(x, root, v)) && StepReady(x, root, v)
  {
    if Get(x.m.mem, Slot(x.t, Index(v, x.level))).p || |x.m.pool| > 0 {
      own' := PlainStep(x, own, root, low, v, end);
      forall w: nat | w < Span(5)
        ensures View(Down(x, root, v).m.mem, 4, root, w)
             == if Covered(StepVictims(x, root, v), w) then None else View(x.m.mem, 4, root, w)
      {
      }
    } else {
      var y := x.(m := Reclaim(x.m, root));
      var own1 := ReclaimOnWay(x, own, root, low, v, end);
      own' := PlainStep(y, own1, root, low, v, end);
      assert Down(y, root, v) == Down(x, root, v);
      AllLostOne(x.m.mem, y.m.mem, Down(x, root, v).m.mem, root, Chosen(x.m, root).value);
    }
  }

  /** Nothing stops this step of the walk: a reclaim, if needed, finds its victim, and the table is still there. */
  ghost predicate StepReady(x: Walker, root: nat, v: nat) {
    && x.t in x.m.mem && |x.m.mem[x.t]| == 512
    && (x.m.mem[x.t][Index(v, x.level)].p || |x.m.pool| > 0 || (Scannable(x.m.mem, root) && Ready(x.m, root)))
    && (x.m.mem[x.t][Index(v, x.level)].p || (
        var m := Supplied(x.m, root);
        |m.pool| > 0 && x.t in m.mem && |m.mem[x.t]| == 512 && m.pool[0] != x.t))
  }

  class Pager {
    const root: nat
    const low: nat
    var mem: Tables
    var pool: seq<nat>
    ghost var own: map<nat, Place>

    ghost predicate Valid()
      reads this
    {
      Sound(Memory(mem, pool), own, root, low)
    }

    /** SmmInitPageTable, with Gen4GPageTable's page directory pointer table: the PML4 on page `base`, then the
        pool, then the masked table of the first 4GB and its page directories. */
    constructor SmmInitPageTable(base: nat)
      ensures Valid() && root == base && low == base + PAGE_TABLE_PAGES + 1 && Memory(mem, pool) == Initial(base)
      ensures |pool| == PAGE_TABLE_PAGES && forall i :: 0 <= i < |pool| ==> pool[i] == base + 1 + i
      ensures forall t :: t in mem ==> t == root || t == low
      ensures forall k :: 0 <= k < 4 ==> Get(mem, Slot(low, k)).pmnt && Get(mem, Slot(low, k)).addr == low + 1 + k
    {
      var pages := base + PAGE_TABLE_PAGES + 1;
      var pdpt := FirstPdpt(pages);
      var pml4 := Blank()[0 := Entry(true, false, false, false, 0, 3, pages, 0)];
      root := base;
      low := pages;
      mem := map[base := pml4, pages := pdpt];
      own := map[base := Place(4, 0, base), pages := Place(3, 0, base)];
      pool := seq(PAGE_TABLE_PAGES, i requires 0 <= i < PAGE_TABLE_PAGES => base + 1 + i);
      FirstTree(base, pages, pml4, pdpt);
      new;
      assert pool[0] in Pages(mem, pool);
    }

    /** One level of the walk: mark the entry on the way, or put a new table there. */
    method DownOne(v: nat, level: nat, t: nat, upper: Option<Slot>) returns (t': nat, upper': Option<Slot>)
      requires level > 0 && StepReady(Walker(Memory(mem, pool), level, t, upper), root, v)
      modifies this`mem, this`pool
      ensures Walker(Memory(mem, pool), level - 1, t', upper')
           == Down(old(Walker(Memory(mem, pool), level, t, upper)), root, v)
    {
      var k := Index(v, level);
      upper' := upper;
      if !mem[t][k].p {
        var page := AllocPage();
        mem := Attach(mem, Slot(t, k), TableEntry(page), Blank());
        t' := page;
      } else {
        upper' := Some(Slot(t, k));
        t' := mem[t][k].addr;
        mem := Put(mem, Slot(t, k), mem[t][k].(a := true, acc := 7));
      }
    }

    /** The inner loop: the walk down to the table that gets the leaf entry. */
    method Walk(v: nat, end: nat) returns (t: nat, upper: Option<Slot>)
      requires end <= 4 && Walkable(AtRoot(Memory(mem, pool), root), root, v, end)
      modifies this`mem, this`pool
      ensures Walker(Memory(mem, pool), end, t, upper) == WalkTo(AtRoot(old(Memory(mem, pool)), root), root, v, end)
    {
      t, upper := root, None;
      var level: nat := 4;
      while level > end
        invariant end <= level
        invariant Walkable(Walker(Memory(mem, pool), level, t, upper), root, v, end)
        invariant WalkTo(Walker(Memory(mem, pool), level, t, upper), root, v, end)
               == WalkTo(AtRoot(old(Memory(mem, pool)), root), root, v, end)
        decreases level
      {
        t, upper := DownOne(v, level, t, upper);
        level := level - 1;
      }
    }

    /** One turn of the outer loop: serve page v. */
    method MapPage(v: nat, end: nat, attr: nat)
      requires end <= 4 && Runnable(Memory(mem, pool), root, v, end)
      modifies this`mem, this`pool
      ensures Memory(mem, pool) == MapOne(old(Memory(mem, pool)), root, v, end, attr)
    {
      var t, upper := Walk(v, end);
      Fill(v, end, attr, t, upper);
    }

    /** Fill in the leaf entry and count it in the deepest entry found. */
    method Fill(v: nat, end: nat, attr: nat, t: nat, upper: Option<Slot>)
      requires t in mem && |mem[t]| == 512
      requires upper.Some? ==> upper.value.table in mem && upper.value.index < |mem[upper.value.table]|
      modifies this`mem
      ensures Memory(mem, pool)
        == Memory(Finish(old(Walker(Memory(mem, pool), end, t, upper)), v, end, attr), old(pool))
    {
      mem := Put(mem, Slot(t, Index(v, end)), LeafEntry(v, end, attr));
      if upper.Some? {
        mem := SetSub(mem, upper.value, Get(mem, upper.value).sub + 1);
      }
    }

    /** GetAndUpdateAccNum on the entry at slot s, and the comparison with the smallest record so far. */
    method Consider(ghost was: Tables, ghost cs: seq<Victim>, c: Victim, s: Slot, best: Option<Best>)
      returns (best': Option<Best>)
      requires Scan(mem, best) == Scanned(was, root, cs) && s == SlotOf(was, root, c) && s.table in mem
        && s.index < |mem[s.table]|
      modifies this`mem
      ensures Scan(mem, best') == Scanned(was, root, cs + [c])
    {
      ScannedNext(was, root, cs, c);
      var e := mem[s.table][s.index];
      var acc := e.acc;
      if e.a {
        mem := Put(mem, s, e.(a := false, acc := 7));
        acc := 7 + 8;
      } else if e.acc != 0 {
        mem := Put(mem, s, e.(acc := e.acc - 1));
      } else {
        assert mem[s.table][s.index := e] == mem[s.table];
      }
      best' := if best.None? || acc < best.value.rank then Some(Best(acc, c)) else best;
    }

    /** The loop over a page directory. */
    method ScanPdt(ghost was: Tables, ghost cs: seq<Victim>, pdt: nat, i4: nat, i3: nat, best: Option<Best>)
      returns (best': Option<Best>, ignore: bool)
      requires Scan(mem, best) == Scanned(was, root, cs)
      requires pdt in was && |was[pdt]| == 512 && pdt == Get(was, Slot(Get(was, Slot(root, i4)).addr, i3)).addr
      modifies this`mem
      ensures Scan(mem, best') == Scanned(was, root, cs + PdtCandidates(was[pdt], i4, i3, 512))
      ensures ignore == HoldsAny(was[pdt], 512)
    {
      best', ignore := best, false;
      var k := 0;
      assert cs + PdtCandidates(was[pdt], i4, i3, 0) == cs;
      while k < 512
        invariant k <= 512 && ignore == HoldsAny(was[pdt], k)
        invariant Scan(mem, best') == Scanned(was, root, cs + PdtCandidates(was[pdt], i4, i3, k))
      {
        ghost var now := cs + PdtCandidates(was[pdt], i4, i3, k);
        ScannedEntry(was, root, now, Scan(mem, best'), pdt, k);
        var e := mem[pdt][k];
        PdtNext(cs, was[pdt], i4, i3, k);
        if !e.p || e.pmnt {
          if e.pmnt { ignore := true; }
        } else if !e.ps {
          ignore := true;
          best' := Consider(was, now, Victim(2, i4, i3, k), Slot(pdt, k), best');
        }
        k := k + 1;
      }
    }

    /** The loop over a page directory pointer table. */
    method ScanPdpt(ghost was: Tables, ghost cs: seq<Victim>, pdpt: nat, i4: nat, best: Option<Best>)
      returns (best': Option<Best>, ignore: bool)
      requires Scan(mem, best) == Scanned(was, root, cs) && Leads(was, pdpt, false)
        && pdpt == Get(was, Slot(root, i4)).addr
      modifies this`mem
      ensures Scan(mem, best') == Scanned(was, root, cs + PdptCandidates(was, was[pdpt], i4, 512))
      ensures ignore == HoldsAny(was[pdpt], 512)
    {
      best', ignore := best, false;
      var k := 0;
      assert cs + PdptCandidates(was, was[pdpt], i4, 0) == cs;
      while k < 512
        invariant k <= 512 && ignore == HoldsAny(was[pdpt], k)
        invariant Scan(mem, best') == Scanned(was, root, cs + PdptCandidates(was, was[pdpt], i4, k))
      {
        ghost var now := cs + PdptCandidates(was, was[pdpt], i4, k);
        ScannedEntry(was, root, now, Scan(mem, best'), pdpt, k);
        var e := mem[pdpt][k];
        PdptNext(was, cs, was[pdpt], i4, k);
        if !e.p || e.pmnt {
          if e.pmnt { ignore := true; }
        } else if !e.ps {
          ignore := true;
          best' := ScanPdpte(was, now, e.addr, Slot(pdpt, k), i4, k, best');
        }
        k := k + 1;
      }
    }

    /** One present entry of a page directory pointer table that leads to a page directory. */
    method ScanPdpte(ghost was: Tables, ghost cs: seq<Victim>, pdt: nat, s: Slot, i4: nat, i3: nat, best: Option<Best>)
      returns (best': Option<Best>)
      requires Scan(mem, best) == Scanned(was, root, cs) && s == Slot(Get(was, Slot(root, i4)).addr, i3)
      requires s.table in was && s.index < |was[s.table]| && !Skip(Get(was, s)) && !Get(was, s).ps
      requires pdt == Get(was, s).addr && pdt in was && |was[pdt]| == 512
      modifies this`mem
      ensures Scan(mem, best') == Scanned(was, root, cs + UnderPdpte(was, Get(was, s), i4, i3))
    {
      var ignore;
      best', ignore := ScanPdt(was, cs, pdt, i4, i3, best);
      ghost var a := PdtCandidates(was[pdt], i4, i3, 512);
      if !ignore {
        AgeAllShape(was, root, cs + a);
        best' := Consider(was, cs + a, Victim(3, i4, i3, 0), s, best');
        assert cs + (a + [Victim(3, i4, i3, 0)]) == cs + a + [Victim(3, i4, i3, 0)];
      } else {
        assert a + [] == a;
      }
    }

    /** One present entry of the PML4. */
    method ScanPml4e(ghost was: Tables, ghost cs: seq<Victim>, pdpt: nat, i4: nat, best: Option<Best>)
      returns (best': Option<Best>)
      requires Scan(mem, best) == Scanned(was, root, cs) && Leads(was, pdpt, false)
      requires root in was && i4 < |was[root]| && pdpt == was[root][i4].addr && !Skip(was[root][i4])
      modifies this`mem
      ensures Scan(mem, best') == Scanned(was, root, cs + UnderPml4e(was, was[root][i4], i4))
    {
      var ignore;
      best', ignore := ScanPdpt(was, cs, pdpt, i4, best);
      ghost var a := PdptCandidates(was, was[pdpt], i4, 512);
      if !ignore {
        AgeAllShape(was, root, cs + a);
        best' := Consider(was, cs + a, Victim(4, i4, 0, 0), Slot(root, i4), best');
        assert cs + (a + [Victim(4, i4, 0, 0)]) == cs + a + [Victim(4, i4, 0, 0)];
      } else {
        assert a + [] == a;
      }
    }

    /** The first part of ReclaimPages: find the entry with the smallest access record. */
    method FindVictim() returns (best: Option<Best>)
      requires Scannable(mem, root)
      modifies this`mem
      ensures Scan(mem, best) == Scanned(old(mem), root, AllCandidates(old(mem), root))
    {
      ghost var was := mem;
      best := None;
      var k := 0;
      while k < 512
        invariant k <= 512 && Scan(mem, best) == Scanned(was, root, Candidates(was, was[root], k))
      {
        ghost var now := Candidates(was, was[root], k);
        AgeAllShape(was, root, now);
        var e := mem[root][k];
        if !e.p || e.pmnt {
          assert now + [] == now;
        } else {
          best := ScanPml4e(was, now, e.addr, k, best);
        }
        k := k + 1;
      }
    }

    /** The second part of ReclaimPages: release the chosen entry's table and the tables left empty above it. */
    method Release(c: Victim)
      requires 2 <= c.level <= 4
      requires Climbable(Memory(mem, pool), root, c)
      modifies this`mem, this`pool
      ensures Memory(mem, pool) == Climb(old(Memory(mem, pool)), root, c)
    {
      var level := c.level;
      while level < 4
        invariant 2 <= level <= 4 && Climbable(Memory(mem, pool), root, c.(level := level))
        invariant Climb(Memory(mem, pool), root, c.(level := level)) == Climb(old(Memory(mem, pool)), root, c)
      {
        var u := SlotOf(mem, root, c.(level := level + 1));
        var n := mem[u.table][u.index].sub;
        if n != 0 {
          mem := SetSub(mem, u, n - 1);
          return;
        }
        pool := pool + [mem[u.table][u.index].addr];
        mem := Drop(mem, u);
        level := level + 1;
      }
    }

    /** ReclaimPages on the tables as they are: in the middle of a walk some counts are still to be corrected. */
    method ReclaimTables()
      requires Scannable(mem, root) && Ready(Memory(mem, pool), root)
      modifies this`mem, this`pool
      ensures Memory(mem, pool) == Reclaim(old(Memory(mem, pool)), root)
    {
      var best := FindVictim();
      var s := SlotOf(mem, root, best.value.victim);
      pool := pool + [mem[s.table][s.index].addr];
      mem := Drop(mem, s);
      Release(best.value.victim);
    }

    /** ReclaimPages on a tree with exact counts: it takes the first of the candidates least recently used (CandidateIff
        says which those are), ages the marks of the others, and removes the translations under that entry only.
        ReclaimKeeps says what Reclaim does besides. */
    method ReclaimPages() returns (ghost victim: Victim)
      requires Valid() && exists t :: t in mem && t != root && t != low
      modifies this`mem, this`pool, this`own
      ensures Valid() && Pages(mem, pool) == Pages(old(mem), old(pool))
      ensures TakesLeastUsed(old(mem), root, victim) && Aged(old(mem), mem, root) && Lost(old(mem), mem, root, victim)
      ensures |old(pool)| + 1 <= |pool| <= |old(pool)| + 3
      ensures MaskedSame(old(mem), mem)
      ensures Memory(mem, pool) == Reclaim(old(Memory(mem, pool)), root)
    {
      own := ReclaimExact(Memory(mem, pool), own, root, low);
      victim := Chosen(Memory(mem, pool), root).value;
      ReclaimTables();
    }

    /** AllocPage. */
    method AllocPage() returns (page: nat)
      requires |pool| > 0 || (Scannable(mem, root) && Ready(Memory(mem, pool), root))
      requires |Supplied(Memory(mem, pool), root).pool| > 0
      modifies this`mem, this`pool
      ensures var m := Supplied(old(Memory(mem, pool)), root);
        |m.pool| > 0 && page == m.pool[0] && pool == m.pool[1..] && mem == m.mem
    {
      if |pool| == 0 {
        ReclaimTables();
      }
      page := pool[0];
      pool := pool[1..];
    }

    /** SmiDefaultPFHandler for a fault in page v.  `platform` is the answer of GetPlatformPageTableAttribute, None
        when it fails.  The ASSERT on 1-GByte support and the one that finds an entry already there are
        preconditions; so is that no reclaim releases a table that the walk is in, without which a page is not
        mapped (MappedIffSpared). */
    method SmiDefaultPFHandler(v: nat, platform: Option<Request>, xd: bool, support1G: bool)
      returns (ghost end: nat, ghost attr: nat, ghost numOfPages: nat)
      requires Valid() && (SizeAsked(platform) == SmmPageSize1G ==> support1G)
      requires Fit(Memory(mem, pool), root, v, EndLevel(platform), AttributeAsked(platform, xd), PagesAsked(platform))
      modifies this`mem, this`pool, this`own
      ensures Valid() && Pages(mem, pool) == Pages(old(mem), old(pool))
      // what is asked for is what the pages read as, unless they were lost again
      ensures Asks(platform, xd, end, attr, numOfPages)
      ensures ServedAll(old(Memory(mem, pool)), mem, root, v, end, attr, numOfPages)
      // without an answer of the platform, that is the 2MB page of the fault
      ensures platform.None? ==> BlockServed(mem, root, v, xd)
    {
      ghost var was := Memory(mem, pool);
      var endLevel, attribute, count := PageParameters(platform, xd);
      end, attr, numOfPages := endLevel, attribute, count;
      ServeAsked(v, endLevel, attribute, count);
      if platform.None? { BlockIsServed(was, mem, root, v, xd, end, attr, numOfPages); }
    }

    /** The handler, once it knows what to map. */
    method ServeAsked(v: nat, end: nat, attr: nat, numOfPages: nat)
      requires Valid() && 1 <= end <= 3 && Fit(Memory(mem, pool), root, v, end, attr, numOfPages)
      modifies this`mem, this`pool, this`own
      ensures Valid() && Pages(mem, pool) == Pages(old(mem), old(pool))
      ensures ServedAll(old(Memory(mem, pool)), mem, root, v, end, attr, numOfPages)
    {
      ghost var own' := AllKeeps(Memory(mem, pool), own, root, low, v, end, attr, numOfPages);
      ServePages(v, end, attr, numOfPages);
      own := own';
    }

    /** The handler's settings: leaf level, attribute bits and number of pages. */
    method PageParameters(platform: Option<Request>, xd: bool) returns (end: nat, attr: nat, numOfPages: nat)
      ensures end == EndLevel(platform) && attr == AttributeAsked(platform, xd) && numOfPages == PagesAsked(platform)
      ensures Asks(platform, xd, end, attr, numOfPages) && 1 <= end <= 3 && numOfPages <= 512
    {
      var pageSize := SmmPageSize2M;
      numOfPages, attr := 1, 0;
      if platform.Some? {
        pageSize, numOfPages, attr := platform.value.size, platform.value.pages, platform.value.attr;
      }
      if pageSize.Other? {
        pageSize := SmmPageSize2M;
      }
      if numOfPages > 512 {
        numOfPages := 512;
      }
      end := if pageSize.SmmPageSize4K? then 1 else if pageSize.SmmPageSize2M? then 2 else 3;
      if xd && attr / NX % 2 == 0 {
        attr := attr + NX;
      }
    }

    /** The handler's loop. */
    method ServePages(v: nat, end: nat, attr: nat, numOfPages: nat)
      requires end <= 4 && Runs(Memory(mem, pool), root, v, end, attr, numOfPages)
      modifies this`mem, this`pool
      ensures Memory(mem, pool) == MapAll(old(Memory(mem, pool)), root, v, end, attr, numOfPages)
    {
      var page, index := v, 0;
      ghost var left := numOfPages;
      while index < numOfPages
        invariant index <= numOfPages && left == numOfPages - index
          && Runs(Memory(mem, pool), root, page, end, attr, left)
        invariant MapAll(Memory(mem, pool), root, page, end, attr, left)
          == MapAll(old(Memory(mem, pool)), root, v, end, attr, numOfPages)
      {
        page := ServePage(page, end, attr, left);
        index := index + 1;
        left := left - 1;
      }
    }

    /** One turn of the handler's loop, with n pages to go; it leaves the address of the next page. */
    method ServePage(v: nat, end: nat, attr: nat, ghost n: nat) returns (next: nat)
      requires end <= 4 && n > 0 && Runs(Memory(mem, pool), root, v, end, attr, n)
      modifies this`mem, this`pool
      ensures next == v + Span(end) && Runs(Memory(mem, pool), root, next, end, attr, n - 1)
      ensures MapAll(Memory(mem, pool), root, next, end, attr, n - 1)
        == MapAll(old(Memory(mem, pool)), root, v, end, attr, n)
    {
      MapPage(v, end, attr);
      next := v + Span(end);
    }
  }

  /** A request that can be served: it asks for addresses that the tables translate, nothing is mapped there yet, and
      no reclaim on the way takes a table from under the walk. */
  ghost predicate Fit(m: Memory, root: nat, v: nat, end: nat, attr: nat, n: nat) {
    InSpace(v, end, n) && Untranslated(m.mem, root, v, end, n) && Servable(m, root, v, end, attr, n)
  }

  /** The n entries from page v on are within the addresses that the tables translate. */
  ghost predicate InSpace(v: nat, end: nat, n: nat) { At(v, end) + n <= At(Span(5), end) }

  /** Nothing is mapped under the n entries from page v on. */
  ghost predicate Untranslated(mem: Tables, root: nat, v: nat, end: nat, n: nat) {
    forall w: nat {:trigger View(mem, 4, root, w)} :: w < Span(5) && Asked(v, end, n, w) ==>
      View(mem, 4, root, w) == None
  }

  /** No reclaim in the course of serving n pages releases a table on the way to the page being served. */
  ghost predicate Servable(m: Memory, root: nat, v: nat, end: nat, attr: nat, n: nat)
    decreases n
  {
    n == 0 || (
      && AllSpared(AtRoot(m, root), root, v, end)
      && Servable(MapOne(m, root, v, end, attr), root, v + Span(end), end, attr, n - 1))
  }

  /** Nothing stops the walk to page v, and it ends in a table. */
  ghost predicate Runnable(m: Memory, root: nat, v: nat, end: nat) {
    var y := WalkTo(AtRoot(m, root), root, v, end);
    && Walkable(AtRoot(m, root), root, v, end) && y.level == end
    && y.t in y.m.mem && |y.m.mem[y.t]| == 512
    && (y.upper.Some? ==> y.upper.value.table in y.m.mem && y.upper.value.index < |y.m.mem[y.upper.value.table]|)
  }

  /** Serving a page keeps the tree with its exact counts and every managed page, and maps that page; translations
      are lost under the entries released on the way, if any, and nowhere else. */
  lemma MapOneKeeps(m: Memory, own: map<nat, Place>, root: nat, low: nat, v: nat, end: nat, attr: nat)
    returns (own': map<nat, Place>)
    requires Sound(m, own, root, low)
    requires 1 <= end <= 3 && v < Span(5) && Clear(m.mem, 4, root, v, end)
    requires AllSpared(AtRoot(m, root), root, v, end)
    ensures Runnable(m, root, v, end)
    ensures var m' := MapOne(m, root, v, end, attr);
      && Tree(m'.mem, own', root, low, map[]) && Apart(m'.mem, m'.pool)
      && Pages(m'.mem, m'.pool) == Pages(m.mem, m.pool)
      && Served(m.mem, m'.mem, root, v, end, attr, WalkVictims(AtRoot(m, root), root, v, end))
  {
    var x := AtRoot(m, root);
    Start(x, own, low, v, end);
    own' := WalkOn(x, own, root, low, v, end);
    var y := WalkTo(x, root, v, end);
    FinishKeeps(y, own', root, low, v, end, attr);
    ServedOn(m.mem, y.m.mem, Finish(y, v, end, attr), root, v, end, attr, WalkVictims(x, root, v, end));
  }

  lemma FinishKeeps(x: Walker, own: map<nat, Place>, root: nat, low: nat, v: nat, end: nat, attr: nat)
    requires Walking(x, own, root, low, v, end) && x.level == end <= 3
    ensures Tree(Finish(x, v, end, attr), own, root, low, map[]) && Finish(x, v, end, attr).Keys == x.m.mem.Keys
    ensures Mapped(x.m.mem, Finish(x, v, end, attr), root, v, end, attr, 1)
  {
    FilledTree(x.m.mem, own, root, low, x.t, Index(v, end), x.upper, LeafEntry(v, end, attr));
    ToldTree(Filled(x, v, end, attr), own, root, low, x.upper);
    forall w: nat | w < Span(5)
      ensures View(Finish(x, v, end, attr), 4, root, w)
           == if Asked(v, end, 1, w) then Some(Identity(w, end, attr)) else View(x.m.mem, 4, root, w)
    {
      FilledView(x.m.mem, own, root, low, x.t, x.upper, v, end, attr, w);
      ToldView(Filled(x, v, end, attr), x.upper, root, w);
    }
  }

  lemma ServedOn(a: Tables, b: Tables, c: Tables, root: nat, v: nat, end: nat, attr: nat, cs: seq<Victim>)
    requires AllLost(a, b, root, cs) && Mapped(b, c, root, v, end, attr, 1)
    ensures Served(a, c, root, v, end, attr, cs)
  {
    forall w: nat | w < Span(5)
      ensures View(c, 4, root, w) == if Asked(v, end, 1, w) then Some(Identity(w, end, attr))
                                     else if Covered(cs, w) then None else View(a, 4, root, w)
    {
      assert View(b, 4, root, w) == View(b, 4, root, w);
    }
  }

  /** Nothing stops the walk. */
  ghost predicate Walkable(x: Walker, root: nat, v: nat, end: nat)
    decreases x.level
  {
    x.level <= end || (
      && StepReady(x, root, v) && Down(x, root, v).level < x.level && Walkable(Down(x, root, v), root, v, end))
  }

  /** A walk whose way is spared runs through; it keeps the tree and loses no page, and translations are lost under
      the entries released only. */
  lemma {:induction false} WalkOn(x: Walker, own: map<nat, Place>, root: nat, low: nat, v: nat, end: nat)
    returns (own': map<nat, Place>)
    requires Walking(x, own, root, low, v, end) && v < Span(5) && Stocked(x.m, root, low) && AllSpared(x, root, v, end)
    ensures var y := WalkTo(x, root, v, end);
      && y.level == end && Walking(y, own', root, low, v, end)
      && Pages(y.m.mem, y.m.pool) == Pages(x.m.mem, x.m.pool)
      && AllLost(x.m.mem, y.m.mem, root, WalkVictims(x, root, v, end))
    ensures Walkable(x, root, v, end)
    decreases x.level
  {
    if x.level > end {
      var y := Down(x, root, v);
      var own1 := DownStep(x, own, root, low, v, end);
      StockedOn(x.m, y.m, root, low);
      own' := WalkOn(y, own1, root, low, v, end);
      AllLostOn(x.m.mem, y.m.mem, WalkTo(x, root, v, end).m.mem, root, StepVictims(x, root, v),
        WalkVictims(y, root, v, end));
    } else {
      own' := own;
      forall w: nat | w < Span(5)
        ensures View(x.m.mem, 4, root, w) == if Covered([], w) then None else View(x.m.mem, 4, root, w)
      {
      }
    }
  }

  lemma StockedOn(m: Memory, m': Memory, root: nat, low: nat)
    requires Stocked(m, root, low) && Pages(m'.mem, m'.pool) == Pages(m.mem, m.pool)
    ensures Stocked(m', root, low)
  {
  }

  lemma Start(x: Walker, own: map<nat, Place>, low: nat, v: nat, end: nat)
    requires x.level == 4 && x.upper.None? && 1 <= end <= 3 && v < Span(5)
    requires Tree(x.m.mem, own, x.t, low, map[]) && Apart(x.m.mem, x.m.pool)
    requires Clear(x.m.mem, 4, x.t, v, end)
    ensures Walking(x, own, x.t, low, v, end)
  {
    FactsOf(x.m.mem, own, x.t, low, map[], x.t, 0);
  }

  /** The way up finds its entries in the tables. */
  ghost predicate Climbable(m: Memory, root: nat, c: Victim)
    decreases 4 - c.level
  {
    c.level >= 4 || (
      var u := SlotOf(m.mem, root, c.(level := c.level + 1));
      && u.table in m.mem && u.index < |m.mem[u.table]|
      && (Get(m.mem, u).sub == 0 ==> Climbable(Free(m, u), root, c.(level := c.level + 1))))
  }

  lemma {:induction false} LooseIsClimbable(m: Memory, own: map<nat, Place>, root: nat, low: nat, bias: map<Slot, int>,
                                            keep: set<nat>, c: Victim, t: nat)
    requires Loose(m, own, root, low, bias, c, t) && Held(m.mem, own, bias, keep)
      && Spares(Climb(m, root, c).pool, keep)
    ensures Climbable(m, root, c)
    decreases 4 - c.level
  {
    if c.level < 4 {
      LooseCount(m, own, root, low, bias, c, t);
      var up := c.(level := c.level + 1);
      var u := SlotOf(m.mem, root, up);
      if Get(m.mem, u).sub == 0 {
        FreedInPool(m, root, c, u);
        ClimbFree(m, own, root, low, bias, keep, c, t);
        LooseIsClimbable(Free(m, u), own - {t}, root, low, bias, keep, up, u.table);
      }
    }
  }

  /** The scan finds a victim, and the chosen entry and the way up from it are there after the aging. */
  ghost predicate Ready(m: Memory, root: nat) {
    var best := Pick(m.mem, root, AllCandidates(m.mem, root));
    && best.Some?
    && var aged := m.(mem := AgeAll(m.mem, root, AllCandidates(m.mem, root)));
       var c := best.value.victim;
       var s := SlotOf(aged.mem, root, c);
       2 <= c.level <= 4 && s.table in aged.mem && s.index < |aged.mem[s.table]| && Climbable(Free(aged, s), root, c)
  }

  /** Reclaiming from a tree runs through, and keeps it. */
  lemma ReclaimSound(m: Memory, own: map<nat, Place>, root: nat, low: nat, bias: map<Slot, int>, keep: set<nat>, t: nat)
    returns (own': map<nat, Place>)
    requires Tree(m.mem, own, root, low, bias) && Apart(m.mem, m.pool)
    requires Held(m.mem, own, bias, keep) && Spares(Reclaim(m, root).pool, keep)
    requires t in m.mem && t != root && t != low
    ensures Scannable(m.mem, root) && Ready(m, root)
    ensures var m' := Reclaim(m, root);
      && Tree(m'.mem, own', root, low, bias) && Apart(m'.mem, m'.pool) && Pages(m'.mem, m'.pool) == Pages(m.mem, m.pool)
      && |m.pool| + 1 <= |m'.pool| <= |m.pool| + 3 && MaskedSame(m.mem, m'.mem) && Kept(own, own', m'.pool)
    ensures Chosen(m, root).Some? && Lost(m.mem, Reclaim(m, root).mem, root, Chosen(m, root).value)
    ensures TakesLeastUsed(m.mem, root, Chosen(m, root).value) && Aged(m.mem, Reclaim(m, root).mem, root)
  {
    var i;
    own', i := ReclaimKeeps(m, own, root, low, bias, keep, t);
    TreeIsLinked(m.mem, own, root, low, bias);
    LinkedIsScannable(m.mem, own, root);
    VictimIsReady(m, own, root, low, bias, keep, i);
  }

  lemma ReclaimExact(m: Memory, own: map<nat, Place>, root: nat, low: nat) returns (own': map<nat, Place>)
    requires Sound(m, own, root, low) && exists t :: t in m.mem && t != root && t != low
    ensures Scannable(m.mem, root) && Ready(m, root)
    ensures var m' := Reclaim(m, root);
      && Sound(m', own', root, low) && Pages(m'.mem, m'.pool) == Pages(m.mem, m.pool)
      && |m.pool| + 1 <= |m'.pool| <= |m.pool| + 3 && MaskedSame(m.mem, m'.mem)
    ensures Chosen(m, root).Some? && Lost(m.mem, Reclaim(m, root).mem, root, Chosen(m, root).value)
    ensures TakesLeastUsed(m.mem, root, Chosen(m, root).value) && Aged(m.mem, Reclaim(m, root).mem, root)
  {
    var t :| t in m.mem && t != root && t != low;
    own' := ReclaimSound(m, own, root, low, map[], {}, t);
    StockedOn(m, Reclaim(m, root), root, low);
  }

  lemma VictimIsReady(m: Memory, own: map<nat, Place>, root: nat, low: nat, bias: map<Slot, int>, keep: set<nat>,
                      i: nat)
    requires Tree(m.mem, own, root, low, bias) && Apart(m.mem, m.pool) && i < |AllCandidates(m.mem, root)|
    requires Held(m.mem, own, bias, keep) && Spares(Reclaim(m, root).pool, keep)
    requires Pick(m.mem, root, AllCandidates(m.mem, root)).Some?
    requires Pick(m.mem, root, AllCandidates(m.mem, root)).value.victim == AllCandidates(m.mem, root)[i]
    ensures Ready(m, root)
  {
    var cs := AllCandidates(m.mem, root);
    var c := cs[i];
    var aged := m.(mem := AgeAll(m.mem, root, cs));
    AgeAllShape(m.mem, root, cs);
    ShapeTree(m.mem, aged.mem, own, root, low, bias);
    CandidateIsEligible(m.mem, own, root, low, bias, c);
    AgedSlot(m.mem, aged.mem, own, root, low, c);
    AgedHeld(m.mem, aged.mem, own, bias, keep);
    ClimbableAfter(aged, own, root, low, bias, keep, c);
  }

  lemma ClimbableAfter(m: Memory, own: map<nat, Place>, root: nat, low: nat, bias: map<Slot, int>, keep: set<nat>,
                       c: Victim)
    requires Tree(m.mem, own, root, low, bias) && Apart(m.mem, m.pool) && Eligible(m.mem, own, root, low, c)
    requires Held(m.mem, own, bias, keep) && Spares(Climb(Free(m, SlotOf(m.mem, root, c)), root, c).pool, keep)
    ensures Climbable(Free(m, SlotOf(m.mem, root, c)), root, c)
  {
    var s := SlotOf(m.mem, root, c);
    var child := Get(m.mem, s).addr;
    ClimbPool(Free(m, s), root, c);
    assert Free(m, s).pool[|m.pool|] == child && child in Climb(Free(m, s), root, c).pool;
    ReleaseVictim(m, own, root, low, bias, keep, c);
    LooseIsClimbable(Free(m, s), own - {child}, root, low, bias, keep, c, s.table);
  }

  // ---------------------------------------------------------------- several pages

  lemma NextEntry(v: nat, end: nat)
    requires 1 <= end <= 3
    ensures At(v + Span(end), end) == At(v, end) + 1
  {
  }

  /** What serving a page leaves untranslated. */
  lemma RestUntranslated(mem: Tables, mem': Tables, root: nat, v: nat, end: nat, attr: nat, n: nat, cs: seq<Victim>)
    requires n > 0 && 1 <= end <= 3 && InSpace(v, end, n) && Untranslated(mem, root, v, end, n)
    requires Served(mem, mem', root, v, end, attr, cs)
    ensures InSpace(v + Span(end), end, n - 1) && Untranslated(mem', root, v + Span(end), end, n - 1)
  {
    NextEntry(v, end);
    forall w: nat | w < Span(5) && Asked(v + Span(end), end, n - 1, w) ensures View(mem', 4, root, w) == None {
      assert View(mem, 4, root, w) == None;
    }
  }

  /** A tree has no empty tables. */
  lemma NotEmpty(mem: Tables, own: map<nat, Place>, root: nat, low: nat, t: nat) returns (k: nat)
    requires Tree(mem, own, root, low, map[]) && t in mem && t != root
    ensures k < 512 == |mem[t]| && mem[t][k].p
  {
    FactsOf(mem, own, root, low, map[], t, 0);
    FactsOf(mem, own, root, low, map[], own[t].parent, own[t].prefix % 512);
    CountNone(mem[t]);
    k :| k < 512 && mem[t][k].p;
  }

  /** So under every table something is translated. */
  lemma {:induction false} SomethingUnder(mem: Tables, own: map<nat, Place>, root: nat, low: nat, t: nat)
    returns (w: nat)
    requires Tree(mem, own, root, low, map[]) && t in mem && t != root
    ensures At(w, own[t].level + 1) == own[t].prefix && View(mem, own[t].level, t, w) != None
    decreases own[t].level
  {
    var k := NotEmpty(mem, own, root, low, t);
    FactsOf(mem, own, root, low, map[], t, k);
    if PointsDown(mem[t][k], own[t].level) {
      w := SomethingUnder(mem, own, root, low, mem[t][k].addr);
    } else {
      w := FirstPage(own[t].level, own[t].prefix * 512 + k);
    }
    UnderPosition(w, own[t].level, own[t].prefix, k);
  }

  lemma FirstPage(level: nat, position: nat) returns (w: nat)
    requires 1 <= level <= 4
    ensures At(w, level) == position
  {
    w := if level == 1 then position else if level == 2 then position * 512
         else if level == 3 then position * 262144 else position * 134217728;
  }

  lemma UnderPosition(w: nat, level: nat, prefix: nat, k: nat)
    requires 1 <= level <= 4 && k < 512 && At(w, level) == prefix * 512 + k
    ensures At(w, level + 1) == prefix && Index(w, level) == k
  {
    DivStep(w, level);
  }

  /** The path to page v is free if and only if nothing is translated under its entry. */
  lemma ClearIffUntranslated(mem: Tables, own: map<nat, Place>, root: nat, low: nat, v: nat, end: nat)
    requires Tree(mem, own, root, low, map[]) && 1 <= end <= 3 && InSpace(v, end, 1)
    ensures Clear(mem, 4, root, v, end) <==> Untranslated(mem, root, v, end, 1)
  {
    FactsOf(mem, own, root, low, map[], root, 0);
    if Clear(mem, 4, root, v, end) {
      forall w: nat | w < Span(5) && Asked(v, end, 1, w) ensures View(mem, 4, root, w) == None {
        ClearView(mem, 4, root, v, end, w);
      }
    } else {
      var w := SomethingOn(mem, own, root, low, root, v, end);
    }
  }

  lemma {:induction false} ClearView(mem: Tables, level: nat, t: nat, v: nat, end: nat, w: nat)
    requires Clear(mem, level, t, v, end) && 1 <= end <= level <= 4 && At(w, end) == At(v, end)
    ensures View(mem, level, t, w) == None
    decreases level
  {
    SameIndex(v, w, end, level);
    if level > end && mem[t][Index(v, level)].p {
      ClearView(mem, level - 1, mem[t][Index(v, level)].addr, v, end, w);
    }
  }

  lemma {:induction false} SameIndex(v: nat, w: nat, end: nat, level: nat)
    requires 1 <= end <= level <= 4 && At(w, end) == At(v, end)
    ensures At(w, level) == At(v, level) && Index(w, level) == Index(v, level)
    decreases level
  {
    if end < level {
      SameIndex(v, w, end, level - 1);
      DivStep(v, level - 1);
      DivStep(w, level - 1);
    }
  }

  lemma {:induction false} SomethingOn(mem: Tables, own: map<nat, Place>, root: nat, low: nat, t: nat, v: nat, end: nat)
    returns (w: nat)
    requires Tree(mem, own, root, low, map[]) && t in mem && 1 <= end <= 3 && end <= own[t].level && InSpace(v, end, 1)
    requires own[t].prefix == At(v, own[t].level + 1) && !Clear(mem, own[t].level, t, v, end)
    ensures w < Span(5) && Asked(v, end, 1, w) && View(mem, 4, root, w) != None
    decreases own[t].level
  {
    var level := own[t].level;
    var k := Index(v, level);
    FactsOf(mem, own, root, low, map[], t, k);
    DivStep(v, level);
    if PointsDown(mem[t][k], level) && level > end {
      w := SomethingOn(mem, own, root, low, mem[t][k].addr, v, end);
    } else {
      if PointsDown(mem[t][k], level) {
        w := SomethingUnder(mem, own, root, low, mem[t][k].addr);
      } else {
        w := v;
      }
      SameEntry(v, w, end, level);
      UnderPosition(w, level, own[t].prefix, k);
      ViaTable(mem, own, root, low, map[], t, w);
    }
  }

  lemma SameEntry(v: nat, w: nat, end: nat, level: nat)
    requires 1 <= end <= 3 && end <= level <= 4 && InSpace(v, end, 1)
    requires w == v || (level == end && At(w, level) == At(v, level))
    ensures w < Span(5) && Asked(v, end, 1, w) && At(w, level) == At(v, level)
  {
  }

  lemma FirstClear(mem: Tables, own: map<nat, Place>, root: nat, low: nat, v: nat, end: nat, n: nat)
    requires Tree(mem, own, root, low, map[]) && 1 <= end <= 3 && InSpace(v, end, n) && n > 0
    requires Untranslated(mem, root, v, end, n)
    ensures Clear(mem, 4, root, v, end) && v < Span(5)
  {
    ClearIffUntranslated(mem, own, root, low, v, end);
  }

  /** A request goes on as one that can be served. */
  lemma FitOn(m: Memory, own: map<nat, Place>, root: nat, low: nat, v: nat, end: nat, attr: nat, n: nat)
    returns (own': map<nat, Place>)
    requires Sound(m, own, root, low) && 1 <= end <= 3 && n > 0 && Fit(m, root, v, end, attr, n)
    ensures Fit(MapOne(m, root, v, end, attr), root, v + Span(end), end, attr, n - 1)
    ensures Sound(MapOne(m, root, v, end, attr), own', root, low)
  {
    FirstClear(m.mem, own, root, low, v, end, n);
    own' := MapOneKeeps(m, own, root, low, v, end, attr);
    StockedOn(m, MapOne(m, root, v, end, attr), root, low);
    RestUntranslated(m.mem, MapOne(m, root, v, end, attr).mem, root, v, end, attr, n,
                     WalkVictims(AtRoot(m, root), root, v, end));
  }

  /** Serving page v runs through, loses no page of memory, and changes translations as Served says. */
  ghost predicate Turn(m: Memory, root: nat, v: nat, end: nat, attr: nat) {
    var m' := MapOne(m, root, v, end, attr);
    && Runnable(m, root, v, end) && Pages(m'.mem, m'.pool) == Pages(m.mem, m.pool)
    && Served(m.mem, m'.mem, root, v, end, attr, WalkVictims(AtRoot(m, root), root, v, end))
  }

  ghost predicate Turns(m: Memory, root: nat, v: nat, end: nat, attr: nat, n: nat)
    decreases n
  {
    n == 0 || (
      && Turn(m, root, v, end, attr)
      && Turns(MapOne(m, root, v, end, attr), root, v + Span(end), end, attr, n - 1))
  }

  lemma FirstTurn(m: Memory, own: map<nat, Place>, root: nat, low: nat, v: nat, end: nat, attr: nat, n: nat)
    requires Sound(m, own, root, low) && 1 <= end <= 3 && n > 0 && Fit(m, root, v, end, attr, n)
    ensures Turn(m, root, v, end, attr)
  {
    FirstClear(m.mem, own, root, low, v, end, n);
    var own' := MapOneKeeps(m, own, root, low, v, end, attr);
  }

  lemma TurnsMore(m: Memory, own: map<nat, Place>, root: nat, low: nat, v: nat, end: nat, attr: nat, n: nat)
    requires Sound(m, own, root, low) && 1 <= end <= 3 && n > 0 && Fit(m, root, v, end, attr, n)
    requires Turns(MapOne(m, root, v, end, attr), root, v + Span(end), end, attr, n - 1)
    ensures Turns(m, root, v, end, attr, n)
  {
    FirstTurn(m, own, root, low, v, end, attr, n);
  }

  lemma MapAllMore(m: Memory, root: nat, v: nat, end: nat, attr: nat, n: nat)
    requires n > 0
    ensures MapAll(m, root, v, end, attr, n)
         == MapAll(MapOne(m, root, v, end, attr), root, v + Span(end), end, attr, n - 1)
  {
  }

  lemma {:induction false} InTurn(m: Memory, own: map<nat, Place>, root: nat, low: nat, v: nat, end: nat, attr: nat,
                                  n: nat)
    requires Sound(m, own, root, low) && 1 <= end <= 3 && Fit(m, root, v, end, attr, n)
    ensures Turns(m, root, v, end, attr, n)
    decreases n
  {
    if n > 0 {
      var own1 := FitOn(m, own, root, low, v, end, attr, n);
      InTurn(MapOne(m, root, v, end, attr), own1, root, low, v + Span(end), end, attr, n - 1);
      TurnsMore(m, own, root, low, v, end, attr, n);
    }
  }

  lemma {:induction false} StaysSound(m: Memory, own: map<nat, Place>, root: nat, low: nat, v: nat, end: nat,
                                      attr: nat, n: nat)
    returns (own': map<nat, Place>)
    requires Sound(m, own, root, low) && 1 <= end <= 3 && Fit(m, root, v, end, attr, n)
    ensures Sound(MapAll(m, root, v, end, attr, n), own', root, low)
    decreases n
  {
    if n > 0 {
      var m1 := MapOne(m, root, v, end, attr);
      var own1 := FitOn(m, own, root, low, v, end, attr, n);
      own' := StaysSound(m1, own1, root, low, v + Span(end), end, attr, n - 1);
      SoundAlike(m1, m, own', root, low, v, end, attr, n);
    } else {
      own' := own;
    }
  }

  lemma SoundAlike(m1: Memory, m: Memory, own: map<nat, Place>, root: nat, low: nat, v: nat, end: nat, attr: nat,
                   n: nat)
    requires n > 0 && m1 == MapOne(m, root, v, end, attr)
    requires Sound(MapAll(m1, root, v + Span(end), end, attr, n - 1), own, root, low)
    ensures Sound(MapAll(m, root, v, end, attr, n), own, root, low)
  {
  }

  /** The whole request: every page of it ends up mapped to itself unless a later page cost it its table, and no other
      translation changes but for those under the entries released; the tree keeps exact counts and loses no page. */
  lemma AllKeeps(m: Memory, own: map<nat, Place>, root: nat, low: nat, v: nat, end: nat, attr: nat, n: nat)
    returns (own': map<nat, Place>)
    requires Sound(m, own, root, low) && 1 <= end <= 3 && Fit(m, root, v, end, attr, n)
    ensures Runs(m, root, v, end, attr, n)
    ensures var m' := MapAll(m, root, v, end, attr, n);
      && Sound(m', own', root, low) && Pages(m'.mem, m'.pool) == Pages(m.mem, m.pool)
      && ServedAll(m, m'.mem, root, v, end, attr, n)
  {
    own' := StaysSound(m, own, root, low, v, end, attr, n);
    InTurn(m, own, root, low, v, end, attr, n);
    AllRun(m, own, root, low, v, end, attr, n);
    AfterAll(m, root, v, end, attr, n);
  }

  /** Nothing stops the service of n pages. */
  ghost predicate Runs(m: Memory, root: nat, v: nat, end: nat, attr: nat, n: nat)
    decreases n
  {
    n == 0 || (
      Runnable(m, root, v, end) && Runs(MapOne(m, root, v, end, attr), root, v + Span(end), end, attr, n - 1))
  }

  lemma {:induction false} AllRun(m: Memory, own: map<nat, Place>, root: nat, low: nat, v: nat, end: nat, attr: nat,
                                  n: nat)
    requires Sound(m, own, root, low) && 1 <= end <= 3 && Fit(m, root, v, end, attr, n)
    ensures Runs(m, root, v, end, attr, n) && SamePages(m, MapAll(m, root, v, end, attr, n))
    decreases n
  {
    if n > 0 {
      var own1 := FitOn(m, own, root, low, v, end, attr, n);
      AllRun(MapOne(m, root, v, end, attr), own1, root, low, v + Span(end), end, attr, n - 1);
      RunsMore(m, own, root, low, v, end, attr, n);
    }
  }

  lemma RunsMore(m: Memory, own: map<nat, Place>, root: nat, low: nat, v: nat, end: nat, attr: nat, n: nat)
    requires Sound(m, own, root, low) && 1 <= end <= 3 && Fit(m, root, v, end, attr, n) && n > 0
    requires var m1 := MapOne(m, root, v, end, attr);
      && Runs(m1, root, v + Span(end), end, attr, n - 1)
      && SamePages(m1, MapAll(m1, root, v + Span(end), end, attr, n - 1))
    ensures Runs(m, root, v, end, attr, n) && SamePages(m, MapAll(m, root, v, end, attr, n))
  {
    FirstTurn(m, own, root, low, v, end, attr, n);
    MapAllMore(m, root, v, end, attr, n);
  }

  ghost predicate SamePages(m: Memory, m': Memory) { Pages(m'.mem, m'.pool) == Pages(m.mem, m.pool) }

  lemma AfterAll(m: Memory, root: nat, v: nat, end: nat, attr: nat, n: nat)
    requires Turns(m, root, v, end, attr, n) && 1 <= end <= 3
    ensures ServedAll(m, MapAll(m, root, v, end, attr, n).mem, root, v, end, attr, n)
  {
    forall w: nat | w < Span(5)
      ensures View(MapAll(m, root, v, end, attr, n).mem, 4, root, w) == After(m, root, v, end, attr, n, w)
    {
      AfterOne(m, root, v, end, attr, n, w);
    }
  }

  /** Every page translates as After says. */
  ghost predicate ServedAll(m: Memory, mem': Tables, root: nat, v: nat, end: nat, attr: nat, n: nat) {
    forall w: nat {:trigger View(mem', 4, root, w)} :: w < Span(5) ==>
      View(mem', 4, root, w) == After(m, root, v, end, attr, n, w)
  }

  /** What a page that has been served reads as, unless it was lost again. */
  lemma ServedReads(m: Memory, mem': Tables, root: nat, v: nat, end: nat, attr: nat, n: nat, w: nat)
    requires ServedAll(m, mem', root, v, end, attr, n) && w < Span(5) && 1 <= end <= 3 && Asked(v, end, n, w)
    requires !Covered(LaterVictims(m, root, v, end, attr, n, At(w, end) - At(v, end)), w)
    ensures View(mem', 4, root, w)
         == Some(Leaf(end, if end == 1 then w else if end == 2 then w / 512 * 512 else w / 262144 * 262144, end != 1,
                      false, if attr / 2 % 2 == 1 then attr else attr + 2))
  {
    assert View(mem', 4, root, w) == View(mem', 4, root, w);
  }

  /** The 512 pages of 4KB around page v are one page of 2MB mapped to itself, writable, execute-disabled where that
      is on. */
  ghost predicate BlockServed(mem: Tables, root: nat, v: nat, xd: bool) {
    forall w: nat {:trigger View(mem, 4, root, w)} :: w / 512 == v / 512 ==>
      View(mem, 4, root, w) == Some(Leaf(2, w / 512 * 512, true, false, if xd then 0x8000_0000_0000_0002 else 2))
  }

  lemma BlockIsServed(m: Memory, mem': Tables, root: nat, v: nat, xd: bool, end: nat, attr: nat, n: nat)
    requires ServedAll(m, mem', root, v, end, attr, n) && Fit(m, root, v, end, attr, n) && Asks(None, xd, end, attr, n)
    ensures BlockServed(mem', root, v, xd)
  {
    forall w: nat | w / 512 == v / 512
      ensures View(mem', 4, root, w)
           == Some(Leaf(2, w / 512 * 512, true, false, if xd then 0x8000_0000_0000_0002 else 2))
    {
      NothingLater(m, root, v, 2, attr);
      ServedReads(m, mem', root, v, 2, attr, 1, w);
    }
  }

  /** Nothing is served after the only page. */
  lemma NothingLater(m: Memory, root: nat, v: nat, end: nat, attr: nat)
    ensures LaterVictims(m, root, v, end, attr, 1, 0) == []
  {
  }

  lemma {:induction false} AfterOne(m: Memory, root: nat, v: nat, end: nat, attr: nat, n: nat, w: nat)
    requires Turns(m, root, v, end, attr, n) && 1 <= end <= 3 && w < Span(5)
    ensures View(MapAll(m, root, v, end, attr, n).mem, 4, root, w) == After(m, root, v, end, attr, n, w)
    decreases n
  {
    if n > 0 {
      var m1 := MapOne(m, root, v, end, attr);
      AfterOne(m1, root, v + Span(end), end, attr, n - 1, w);
      AfterFirst(m, m1, root, v, end, attr, n, w);
      MapAllMore(m, root, v, end, attr, n);
    }
  }

  lemma AfterFirst(m: Memory, m1: Memory, root: nat, v: nat, end: nat, attr: nat, n: nat, w: nat)
    requires n > 0 && 1 <= end <= 3 && w < Span(5) && m1 == MapOne(m, root, v, end, attr)
    requires Served(m.mem, m1.mem, root, v, end, attr, WalkVictims(AtRoot(m, root), root, v, end))
    ensures After(m1, root, v + Span(end), end, attr, n - 1, w) == After(m, root, v, end, attr, n, w)
  {
    NextEntry(v, end);
    CoveredMore(WalkVictims(AtRoot(m, root), root, v, end), Victims(m1, root, v + Span(end), end, attr, n - 1), w);
    assert View(m1.mem, 4, root, w) == View(m1.mem, 4, root, w);
  }

  /** The memory that SmmInitPageTable leaves. */
  function Initial(base: nat): Memory {
    var low := base + PAGE_TABLE_PAGES + 1;
    Memory(map[base := FirstPml4(low), low := FirstPdpt(low)],
           seq(PAGE_TABLE_PAGES, i requires 0 <= i < PAGE_TABLE_PAGES => base + 1 + i))
  }

  function FirstPml4(pages: nat): (r: Table)
    ensures |r| == 512
  {
    Blank()[0 := Entry(true, false, false, false, 0, 3, pages, 0)]
  }

  /** The entries for the four page directories of the first 4GB, masked. */
  function FirstPdpt(pages: nat): (r: Table)
    ensures |r| == 512
  {
    Blank()[0 := FirstEntry(pages, 0)][1 := FirstEntry(pages, 1)][2 := FirstEntry(pages, 2)][3 := FirstEntry(pages, 3)]
  }

  function FirstEntry(pages: nat, k: nat): Entry { Entry(true, true, false, false, 0, 0, pages + 1 + k, 0) }

  lemma FirstTree(base: nat, pages: nat, pml4: Table, pdpt: Table)
    requires base < pages && pdpt == FirstPdpt(pages)
      && pml4 == Blank()[0 := Entry(true, false, false, false, 0, 3, pages, 0)]
    ensures Tree(map[base := pml4, pages := pdpt], map[base := Place(4, 0, base), pages := Place(3, 0, base)], base,
      pages, map[])
  {
    FirstCount(pages);
    var mem, own := map[base := pml4, pages := pdpt], map[base := Place(4, 0, base), pages := Place(3, 0, base)];
    forall t, k | t in mem && 0 <= k < 512 ensures Facts(mem, own, base, pages, map[], t, k) {
    }
    TreeOf(mem, own, base, pages, map[]);
  }

  lemma FirstCount(pages: nat)
    ensures Count(FirstPdpt(pages)) == 4
  {
    CountNone(Blank());
    var t1 := Blank()[0 := FirstEntry(pages, 0)];
    var t2 := t1[1 := FirstEntry(pages, 1)];
    var t3 := t2[2 := FirstEntry(pages, 2)];
    CountSet(Blank(), 0, FirstEntry(pages, 0));
    CountSet(t1, 1, FirstEntry(pages, 1));
    CountSet(t2, 2, FirstEntry(pages, 2));
    CountSet(t3, 3, FirstEntry(pages, 3));
  }
}
