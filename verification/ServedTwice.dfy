/** What the fault handler does for a page that is mapped already, with the ASSERT compiled out.  Two CPUs may fault at
    one page before either holds the lock; the second is then served after the first has mapped the page. */
module ServedTwice {
  import opened Common
  import opened Sums
  import opened PagingTree
  import opened PageReclaim
  import opened DemandPaging

  /** The walk is on its way to the leaf that maps page v. */
  ghost predicate Following(x: Walker, own: map<nat, Place>, root: nat, low: nat, bias: map<Slot, int>, v: nat,
                            end: nat, attr: nat) {
    && 1 <= end <= x.level <= 4 && Tree(x.m.mem, own, root, low, bias) && x.t in x.m.mem && own[x.t].level == x.level
    && x.upper == Over(own, root, x.t) && View(x.m.mem, x.level, x.t, v) == Some(Identity(v, end, attr))
  }

  /** A step along entries that are there. */
  lemma FollowOn(x: Walker, own: map<nat, Place>, root: nat, low: nat, bias: map<Slot, int>, v: nat, end: nat,
                 attr: nat)
    requires Following(x, own, root, low, bias, v, end, attr) && end < x.level
    ensures StepReady(x, root, v)
    ensures var y := Down(x, root, v);
      && Following(y, own, root, low, bias, v, end, attr) && y.level == x.level - 1 && y.m.pool == x.m.pool
      && SameShape(x.m.mem, y.m.mem)
  {
    var k := Index(v, x.level);
    FactsOf(x.m.mem, own, root, low, bias, x.t, k);
    var y := Down(x, root, v);
    MarkShape(x.m.mem, Slot(x.t, k));
    ShapeTree(x.m.mem, y.m.mem, own, root, low, bias);
    ShapeView(x.m.mem, y.m.mem, y.level, y.t, v);
  }

  lemma ShapeSameView(mem: Tables, mem': Tables, root: nat)
    requires SameShape(mem, mem')
    ensures SameView(mem, mem', root)
  {
    forall w: nat | w < Span(5) ensures View(mem', 4, root, w) == View(mem, 4, root, w) {
      ShapeView(mem, mem', 4, root, w);
    }
  }

  lemma {:induction false} FollowDown(x: Walker, own: map<nat, Place>, root: nat, low: nat, bias: map<Slot, int>,
                                      v: nat, end: nat, attr: nat)
    requires Following(x, own, root, low, bias, v, end, attr)
    ensures Walkable(x, root, v, end)
    ensures var y := WalkTo(x, root, v, end);
      && Following(y, own, root, low, bias, v, end, attr) && y.level == end && y.m.pool == x.m.pool
      && SameView(x.m.mem, y.m.mem, root) && y.m.mem.Keys == x.m.mem.Keys
    decreases x.level
  {
    if x.level > end {
      FollowOn(x, own, root, low, bias, v, end, attr);
      var y := Down(x, root, v);
      FollowDown(y, own, root, low, bias, v, end, attr);
      ShapeSameView(x.m.mem, y.m.mem, root);
      SameViewOn(x.m.mem, y.m.mem, WalkTo(y, root, v, end).m.mem, root);
    } else {
      ShapeSameView(x.m.mem, x.m.mem, root);
    }
  }

  // ---------------------------------------------------------------- the leaf is written again

  /** The two entries lead nowhere and translate alike. */
  predicate Alike(e: Entry, f: Entry, level: nat) {
    !PointsDown(e, level) && f == e.(a := f.a, acc := f.acc, sub := f.sub)
  }

  lemma AgainTree(mem: Tables, own: map<nat, Place>, root: nat, low: nat, bias: map<Slot, int>, s: Slot, f: Entry)
    requires Tree(mem, own, root, low, bias) && InTree(mem, own, s) && Alike(Get(mem, s), f, own[s.table].level)
    ensures Tree(Put(mem, s, f), own, root, low, bias)
  {
    var mem' := Put(mem, s, f);
    FactsOf(mem, own, root, low, bias, low, 0);
    forall t, k | t in mem' && 0 <= k < 512 ensures Facts(mem', own, root, low, bias, t, k) {
      FactsOf(mem, own, root, low, bias, t, k);
      CountSet(mem[s.table], s.index, f);
    }
    TreeOf(mem', own, root, low, bias);
  }

  lemma {:induction false} AgainView(mem: Tables, own: map<nat, Place>, root: nat, low: nat, bias: map<Slot, int>,
                                     s: Slot, f: Entry, t: nat, w: nat)
    requires Tree(mem, own, root, low, bias) && InTree(mem, own, s) && Alike(Get(mem, s), f, own[s.table].level)
    requires t in mem
    ensures View(Put(mem, s, f), own[t].level, t, w) == View(mem, own[t].level, t, w)
    decreases own[t].level
  {
    var k := Index(w, own[t].level);
    FactsOf(mem, own, root, low, bias, t, k);
    if PointsDown(mem[t][k], own[t].level) {
      AgainView(mem, own, root, low, bias, s, f, mem[t][k].addr, w);
    }
  }

  lemma {:induction false} LeafBelow(mem: Tables, level: nat, t: nat, v: nat)
    requires View(mem, level, t, v).Some?
    ensures View(mem, level, t, v).value.level <= level
  {
    var e := mem[t][Index(v, level)];
    if PointsDown(e, level) { LeafBelow(mem, level - 1, e.addr, v); }
  }

  lemma AgainIsAlike(x: Walker, own: map<nat, Place>, root: nat, low: nat, bias: map<Slot, int>, v: nat, end: nat,
                     attr: nat)
    requires Following(x, own, root, low, bias, v, end, attr) && x.level == end
    ensures InTree(x.m.mem, own, Slot(x.t, Index(v, end)))
    ensures Alike(Get(x.m.mem, Slot(x.t, Index(v, end))), LeafEntry(v, end, attr), end)
  {
    FactsOf(x.m.mem, own, root, low, bias, x.t, Index(v, end));
    var e := x.m.mem[x.t][Index(v, end)];
    if PointsDown(e, end) { LeafBelow(x.m.mem, end - 1, e.addr, v); }
  }

  // ---------------------------------------------------------------- a page served again

  /** A page that is mapped already is served again: no translation changes, the pool neither, but the entry above the
      leaf's table counts one entry more than there is. */
  lemma AgainOne(m: Memory, own: map<nat, Place>, root: nat, low: nat, bias: map<Slot, int>, v: nat, end: nat,
                 attr: nat) returns (u: Slot)
    requires Tree(m.mem, own, root, low, bias) && 1 <= end <= 3
    requires View(m.mem, 4, root, v) == Some(Identity(v, end, attr))
    ensures Runnable(m, root, v, end)
    ensures var m' := MapOne(m, root, v, end, attr);
      && SameView(m.mem, m'.mem, root) && m'.pool == m.pool && m'.mem.Keys == m.mem.Keys
      && Tree(m'.mem, own, root, low, Ahead(bias, u, 1))
  {
    var x := AtRoot(m, root);
    FactsOf(m.mem, own, root, low, bias, root, 0);
    FollowDown(x, own, root, low, bias, v, end, attr);
    var y := WalkTo(x, root, v, end);
    u := Above(own, y.t);
    AgainFinish(y, own, root, low, bias, v, end, attr);
    SameViewOn(m.mem, y.m.mem, Finish(y, v, end, attr), root);
  }

  lemma AgainFinish(y: Walker, own: map<nat, Place>, root: nat, low: nat, bias: map<Slot, int>, v: nat, end: nat,
                    attr: nat)
    requires Following(y, own, root, low, bias, v, end, attr) && y.level == end <= 3
    ensures y.upper == Some(Above(own, y.t)) && |y.m.mem[y.t]| == 512
    ensures y.upper.value.table in y.m.mem && y.upper.value.index < |y.m.mem[y.upper.value.table]|
    ensures var mem' := Finish(y, v, end, attr);
      && Tree(mem', own, root, low, Ahead(bias, Above(own, y.t), 1)) && SameView(y.m.mem, mem', root)
      && mem'.Keys == y.m.mem.Keys
  {
    var s, f := Slot(y.t, Index(v, end)), LeafEntry(v, end, attr);
    FactsOf(y.m.mem, own, root, low, bias, y.t, Index(v, end));
    FactsOf(y.m.mem, own, root, low, bias, root, 0);
    AgainIsAlike(y, own, root, low, bias, v, end, attr);
    var filled := Put(y.m.mem, s, f);
    AgainTree(y.m.mem, own, root, low, bias, s, f);
    var u := Above(own, y.t);
    FactsOf(filled, own, root, low, bias, y.t, 0);
    FactsOf(filled, own, root, low, bias, u.table, u.index);
    SubTree(filled, own, root, low, bias, u, Get(filled, u).sub + 1);
    forall w: nat | w < Span(5) ensures View(Finish(y, v, end, attr), 4, root, w) == View(y.m.mem, 4, root, w) {
      AgainView(y.m.mem, own, root, low, bias, s, f, root, w);
      SubView(filled, u, Get(filled, u).sub + 1, 4, root, w);
    }
  }

  /** Every page of the request is mapped already. */
  ghost predicate AllMapped(mem: Tables, root: nat, v: nat, end: nat, attr: nat, n: nat) {
    forall j: nat {:trigger Identity(v + j * Span(end), end, attr)} :: j < n ==>
      && v + j * Span(end) < Span(5)
      && View(mem, 4, root, v + j * Span(end)) == Some(Identity(v + j * Span(end), end, attr))
  }

  /** By how much counts are ahead of the tables. */
  ghost predicate OnlyAhead(bias: map<Slot, int>, bias': map<Slot, int>) {
    forall s {:trigger Bias(bias', s)} :: Bias(bias, s) <= Bias(bias', s)
  }

  /** A whole request served again. */
  lemma {:induction false} AgainAll(m: Memory, own: map<nat, Place>, root: nat, low: nat, bias: map<Slot, int>, v: nat,
                                    end: nat, attr: nat, n: nat) returns (bias': map<Slot, int>)
    requires Tree(m.mem, own, root, low, bias) && 1 <= end <= 3 && AllMapped(m.mem, root, v, end, attr, n)
    ensures Runs(m, root, v, end, attr, n)
    ensures var m' := MapAll(m, root, v, end, attr, n);
      && SameView(m.mem, m'.mem, root) && m'.pool == m.pool && m'.mem.Keys == m.mem.Keys
      && Tree(m'.mem, own, root, low, bias') && OnlyAhead(bias, bias')
    decreases n
  {
    bias' := bias;
    if n == 0 {
      ShapeSameView(m.mem, m.mem, root);
    } else {
      FirstIsMapped(m.mem, root, v, end, attr, n);
      var u := AgainOne(m, own, root, low, bias, v, end, attr);
      var m1 := MapOne(m, root, v, end, attr);
      MappedLater(m.mem, m1.mem, root, v, end, attr, n);
      bias' := AgainAll(m1, own, root, low, Ahead(bias, u, 1), v + Span(end), end, attr, n - 1);
      SameViewOn(m.mem, m1.mem, MapAll(m1, root, v + Span(end), end, attr, n - 1).mem, root);
      AheadOnly(bias, u, bias');
    }
  }

  lemma FirstIsMapped(mem: Tables, root: nat, v: nat, end: nat, attr: nat, n: nat)
    requires n > 0 && AllMapped(mem, root, v, end, attr, n)
    ensures v < Span(5) && View(mem, 4, root, v) == Some(Identity(v, end, attr))
  {
    var j: nat := 0;
    assert v + j * Span(end) == v;
    assert Identity(v + j * Span(end), end, attr) == Identity(v, end, attr);
  }

  lemma AheadOnly(bias: map<Slot, int>, u: Slot, bias': map<Slot, int>)
    requires OnlyAhead(Ahead(bias, u, 1), bias')
    ensures OnlyAhead(bias, bias')
  {
    forall s ensures Bias(bias, s) <= Bias(bias', s) {
      assert Bias(bias, s) <= Bias(Ahead(bias, u, 1), s);
    }
  }

  lemma MappedLater(mem: Tables, mem': Tables, root: nat, v: nat, end: nat, attr: nat, n: nat)
    requires n > 0 && AllMapped(mem, root, v, end, attr, n) && SameView(mem, mem', root)
    ensures AllMapped(mem', root, v + Span(end), end, attr, n - 1)
  {
    forall j: nat | j < n - 1
      ensures var w := v + Span(end) + j * Span(end);
        View(mem', 4, root, w) == Some(Identity(w, end, attr)) && w < Span(5)
    {
      var w := v + (j + 1) * Span(end);
      assert w == v + Span(end) + j * Span(end);
      assert Identity(v + (j + 1) * Span(end), end, attr) == Identity(w, end, attr);
      assert View(mem', 4, root, w) == View(mem, 4, root, w);
    }
  }

  /** A count that is ahead keeps its table: the climb does not release it, though the release below it has left it
      empty (a release alone leaves the count one ahead). */
  lemma AheadIsKept(m: Memory, own: map<nat, Place>, root: nat, low: nat, bias: map<Slot, int>, c: Victim)
    requires Tree(m.mem, own, root, low, bias) && c.level < 4
    requires var u := SlotOf(m.mem, root, c.(level := c.level + 1));
      InTree(m.mem, own, u) && PointsDown(Get(m.mem, u), own[u.table].level) && Bias(bias, u) >= 2
    ensures Climb(m, root, c).mem.Keys == m.mem.Keys && Climb(m, root, c).pool == m.pool
    ensures SameView(m.mem, Climb(m, root, c).mem, root)
  {
    var u := SlotOf(m.mem, root, c.(level := c.level + 1));
    FactsOf(m.mem, own, root, low, bias, u.table, u.index);
    CountBounds(m.mem[Get(m.mem, u).addr]);
    assert Get(m.mem, u).sub > 0;
    forall w: nat | w < Span(5) ensures View(Climb(m, root, c).mem, 4, root, w) == View(m.mem, 4, root, w) {
      SubView(m.mem, u, Get(m.mem, u).sub - 1, 4, root, w);
    }
  }
}
