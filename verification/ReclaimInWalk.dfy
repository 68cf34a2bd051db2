/** What a reclaim in the middle of the fault handler's walk does: nothing to the walk if it releases no table on the
    walked path, and otherwise the page asked for is not mapped.  With enough pages in the pool there is none. */
module ReclaimInWalk {
  import opened Common
  import opened Sums
  import opened PagingTree
  import opened PageReclaim
  import opened DemandPaging

  // ---------------------------------------------------------------- enough pages in the pool

  /** A walk that finds the tables it lacks in the pool needs no reclaim, and takes just that many pages. */
  lemma {:induction false} NoReclaim(x: Walker, own: map<nat, Place>, root: nat, low: nat, v: nat, end: nat)
    requires Walking(x, own, root, low, v, end) && v < Span(5)
    requires Missing(x.m.mem, x.level, x.t, v, end) <= |x.m.pool|
    ensures AllSpared(x, root, v, end) && WalkVictims(x, root, v, end) == []
    ensures |WalkTo(x, root, v, end).m.pool| == |x.m.pool| - Missing(x.m.mem, x.level, x.t, v, end)
    decreases x.level
  {
    if x.level > end {
      FactsOf(x.m.mem, own, root, low, Pending(own, root, x.t, x.upper), x.t, Index(v, x.level));
      var own' := PlainStep(x, own, root, low, v, end);
      StillMissing(x, own, root, low, v, end);
      NoReclaim(Down(x, root, v), own', root, low, v, end);
    }
  }

  lemma StillMissing(x: Walker, own: map<nat, Place>, root: nat, low: nat, v: nat, end: nat)
    requires Walking(x, own, root, low, v, end) && end < x.level
    requires Get(x.m.mem, Slot(x.t, Index(v, x.level))).p || |x.m.pool| > 0
    ensures var y := Down(x, root, v);
      Missing(x.m.mem, x.level, x.t, v, end) - Missing(y.m.mem, y.level, y.t, v, end) == |x.m.pool| - |y.m.pool|
  {
    if Get(x.m.mem, Slot(x.t, Index(v, x.level))).p {
      DownAlong(x, own, root, low, v, end);
      ShapeClear(x.m.mem, Down(x, root, v).m.mem, x.level - 1, Down(x, root, v).t, v, end);
    } else {
      DownNew(x, own, root, low, v, end);
    }
  }

  lemma {:induction false} MissingBound(mem: Tables, level: nat, t: nat, v: nat, end: nat)
    requires 1 <= end <= level
    ensures Missing(mem, level, t, v, end) <= level - end
  {
    if level > end && t in mem && |mem[t]| == 512 && mem[t][Index(v, level)].p {
      MissingBound(mem, level - 1, mem[t][Index(v, level)].addr, v, end);
    }
  }

  /** Once a page is mapped, no table is missing for its neighbours under the same table. */
  lemma {:induction false} NoneMissing(mem: Tables, level: nat, t: nat, v: nat, w: nat, end: nat)
    requires 1 <= end <= level <= 4 && At(w, end + 1) == At(v, end + 1)
    requires View(mem, level, t, v).Some? && View(mem, level, t, v).value.level == end
    ensures Missing(mem, level, t, w, end) == 0
  {
    if level > end {
      SameIndex(v, w, end + 1, level);
      NoneMissing(mem, level - 1, mem[t][Index(v, level)].addr, v, w, end);
    }
  }

  /** An upper bound of the tables that n pages need: those missing for the first, and a path of them where the
      entries go on in another table. */
  function Need(m: Memory, root: nat, v: nat, end: nat, n: nat): nat
    requires end <= 4
  {
    if n == 0 then 0 else Missing(m.mem, 4, root, v, end) + if Index(v, end) + n > 512 then 4 - end else 0
  }

  lemma NeedLater(m: Memory, m': Memory, root: nat, v: nat, end: nat, attr: nat, n: nat)
    requires 1 <= end <= 3 && 0 < n <= 512 && v < Span(5) && Need(m, root, v, end, n) <= |m.pool|
    requires Served(m.mem, m'.mem, root, v, end, attr, [])
    requires |m'.pool| == |m.pool| - Missing(m.mem, 4, root, v, end)
    ensures Need(m', root, v + Span(end), end, n - 1) <= |m'.pool|
  {
    MissingBound(m'.mem, 4, root, v + Span(end), end);
    NextIndex(v, end);
    if Index(v, end) < 511 {
      assert View(m'.mem, 4, root, v) == Some(Identity(v, end, attr));
      NoneMissing(m'.mem, 4, root, v, v + Span(end), end);
    }
  }

  lemma NextIndex(v: nat, end: nat)
    requires 1 <= end <= 3
    ensures Index(v, end) < 511 ==>
      At(v + Span(end), end + 1) == At(v, end + 1) && Index(v + Span(end), end) == Index(v, end) + 1
    ensures Index(v, end) == 511 ==> Index(v + Span(end), end) == 0
  {
    DivStep(v, end);
    DivStep(v + Span(end), end);
    NextEntry(v, end);
  }

  lemma PlentyStep(m: Memory, own: map<nat, Place>, root: nat, low: nat, v: nat, end: nat, attr: nat, n: nat)
    returns (own': map<nat, Place>)
    requires Sound(m, own, root, low) && 1 <= end <= 3 && 0 < n <= 512 && Need(m, root, v, end, n) <= |m.pool|
    requires InSpace(v, end, n) && Untranslated(m.mem, root, v, end, n)
    ensures AllSpared(AtRoot(m, root), root, v, end) && WalkVictims(AtRoot(m, root), root, v, end) == []
    ensures var m1 := MapOne(m, root, v, end, attr);
      && Sound(m1, own', root, low) && Need(m1, root, v + Span(end), end, n - 1) <= |m1.pool|
      && InSpace(v + Span(end), end, n - 1) && Untranslated(m1.mem, root, v + Span(end), end, n - 1)
  {
    var x, m1 := AtRoot(m, root), MapOne(m, root, v, end, attr);
    FirstClear(m.mem, own, root, low, v, end, n);
    Start(x, own, low, v, end);
    NoReclaim(x, own, root, low, v, end);
    own' := MapOneKeeps(m, own, root, low, v, end, attr);
    StockedOn(m, m1, root, low);
    RestUntranslated(m.mem, m1.mem, root, v, end, attr, n, []);
    NeedLater(m, m1, root, v, end, attr, n);
  }

  lemma ServableMore(m: Memory, root: nat, v: nat, end: nat, attr: nat, n: nat)
    requires n > 0 && AllSpared(AtRoot(m, root), root, v, end) && WalkVictims(AtRoot(m, root), root, v, end) == []
    requires Servable(MapOne(m, root, v, end, attr), root, v + Span(end), end, attr, n - 1)
    requires Victims(MapOne(m, root, v, end, attr), root, v + Span(end), end, attr, n - 1) == []
    ensures Servable(m, root, v, end, attr, n) && Victims(m, root, v, end, attr, n) == []
  {
  }

  /** With enough pages in the pool every request for pages that are not mapped yet can be served, without a reclaim. */
  lemma {:induction false} PlentyServes(m: Memory, own: map<nat, Place>, root: nat, low: nat, v: nat, end: nat,
          attr: nat, n: nat)
    requires Sound(m, own, root, low) && 1 <= end <= 3 && n <= 512 && Need(m, root, v, end, n) <= |m.pool|
    requires InSpace(v, end, n) && Untranslated(m.mem, root, v, end, n)
    ensures Servable(m, root, v, end, attr, n) && Victims(m, root, v, end, attr, n) == []
    decreases n
  {
    if n > 0 {
      var own1 := PlentyStep(m, own, root, low, v, end, attr, n);
      PlentyServes(MapOne(m, root, v, end, attr), own1, root, low, v + Span(end), end, attr, n - 1);
      ServableMore(m, root, v, end, attr, n);
    }
  }

  lemma {:induction false} NoneLater(m: Memory, root: nat, v: nat, end: nat, attr: nat, n: nat, j: nat)
    requires Victims(m, root, v, end, attr, n) == []
    ensures LaterVictims(m, root, v, end, attr, n, j) == []
    decreases n
  {
    if n > 0 && j > 0 {
      NoneLater(MapOne(m, root, v, end, attr), root, v + Span(end), end, attr, n - 1, j - 1);
    }
  }

  /** Then the request maps exactly the pages asked for, and every other translation stays.  The handler takes at most
      512 pages, so that twice a path of tables, six pages, is always enough. */
  lemma PlentyMaps(m: Memory, own: map<nat, Place>, root: nat, low: nat, v: nat, end: nat, attr: nat, n: nat)
    requires Sound(m, own, root, low) && 1 <= end <= 3 && n <= 512
    requires Need(m, root, v, end, n) <= |m.pool| || 2 * (4 - end) <= |m.pool|
    requires InSpace(v, end, n) && Untranslated(m.mem, root, v, end, n)
    ensures Fit(m, root, v, end, attr, n) && Mapped(m.mem, MapAll(m, root, v, end, attr, n).mem, root, v, end, attr, n)
  {
    MissingBound(m.mem, 4, root, v, end);
    PlentyServes(m, own, root, low, v, end, attr, n);
    var own' := AllKeeps(m, own, root, low, v, end, attr, n);
    NothingLost(m, MapAll(m, root, v, end, attr, n).mem, root, v, end, attr, n);
  }

  lemma NothingLost(m: Memory, mem': Tables, root: nat, v: nat, end: nat, attr: nat, n: nat)
    requires ServedAll(m, mem', root, v, end, attr, n) && Victims(m, root, v, end, attr, n) == []
    ensures Mapped(m.mem, mem', root, v, end, attr, n)
  {
    forall w: nat | w < Span(5)
      ensures View(mem', 4, root, w)
           == if Asked(v, end, n, w) then Some(Identity(w, end, attr)) else View(m.mem, 4, root, w)
    {
      assert View(mem', 4, root, w) == After(m, root, v, end, attr, n, w);
      if Asked(v, end, n, w) {
        NoneLater(m, root, v, end, attr, n, At(w, end) - At(v, end));
      }
    }
  }

  // ---------------------------------------------------------------- the marks a walk leaves

  /** The entries on the way to page v, from table t down to the level `stop`, lead on and are marked as just used; the
      way ends at table `last`. */
  ghost predicate MarkedTo(mem: Tables, level: nat, t: nat, v: nat, stop: nat, last: nat) {
    if level <= stop then t == last
    else
      && t in mem && |mem[t]| == 512
      && var e := mem[t][Index(v, level)];
         PointsDown(e, level) && e.a && e.acc == 7 && MarkedTo(mem, level - 1, e.addr, v, stop, last)
  }

  lemma {:induction false} MarkedMore(mem: Tables, level: nat, t: nat, v: nat, stop: nat, last: nat)
    requires 0 < stop <= level && MarkedTo(mem, level, t, v, stop, last) && last in mem && |mem[last]| == 512
    requires var e := mem[last][Index(v, stop)]; PointsDown(e, stop) && e.a && e.acc == 7
    ensures MarkedTo(mem, level, t, v, stop - 1, mem[last][Index(v, stop)].addr)
  {
    if level > stop {
      MarkedMore(mem, level - 1, mem[t][Index(v, level)].addr, v, stop, last);
    } else {
      assert MarkedTo(mem, level - 1, mem[t][Index(v, level)].addr, v, stop - 1, mem[last][Index(v, stop)].addr);
    }
  }

  /** The tables above a level keep their entries, but for the numbers of sub-entries. */
  ghost predicate SameAbove(mem: Tables, mem': Tables, own: map<nat, Place>, stop: nat) {
    forall t {:trigger mem'[t]} {:trigger own[t]} :: t in own && own[t].level > stop && t in mem && |mem[t]| == 512 ==>
      t in mem' && |mem'[t]| == 512
      && forall k {:trigger mem'[t][k]} :: 0 <= k < 512 ==> mem'[t][k] == mem[t][k].(sub := mem'[t][k].sub)
  }

  lemma {:induction false} MarkedSame(mem: Tables, mem': Tables, own: map<nat, Place>, root: nat, level: nat, t: nat,
                                      v: nat, stop: nat, last: nat)
    requires Linked(mem, own, root) && SameAbove(mem, mem', own, stop) && t in own && own[t].level == level
    requires MarkedTo(mem, level, t, v, stop, last)
    ensures MarkedTo(mem', level, t, v, stop, last)
  {
    if level > stop {
      LinksOf(mem, own, root, t, Index(v, level));
      assert mem'[t][Index(v, level)] == mem[t][Index(v, level)].(sub := mem'[t][Index(v, level)].sub);
      MarkedSame(mem, mem', own, root, level - 1, mem[t][Index(v, level)].addr, v, stop, last);
    }
  }

  /** One level down without a reclaim: the entry gone through is marked. */
  lemma DownMarks(x: Walker, own: map<nat, Place>, root: nat, low: nat, v: nat, end: nat)
    requires Walking(x, own, root, low, v, end) && end < x.level && root in own && own[root].level == 4
    requires Get(x.m.mem, Slot(x.t, Index(v, x.level))).p || |x.m.pool| > 0
    requires MarkedTo(x.m.mem, 4, root, v, x.level, x.t)
    ensures var y := Down(x, root, v); MarkedTo(y.m.mem, 4, root, v, y.level, y.t) && y.level == x.level - 1
  {
    var y, k := Down(x, root, v), Index(v, x.level);
    TreeIsLinked(x.m.mem, own, root, low, Pending(own, root, x.t, x.upper));
    LinksOf(x.m.mem, own, root, x.t, k);
    assert y.m.mem[x.t][k].addr == y.t;
    MarkedSame(x.m.mem, y.m.mem, own, root, 4, root, v, x.level, x.t);
    MarkedMore(y.m.mem, 4, root, v, x.level, x.t);
  }

  lemma {:induction false} WalkMarks(x: Walker, own: map<nat, Place>, root: nat, low: nat, v: nat, end: nat)
    returns (own': map<nat, Place>)
    requires Walking(x, own, root, low, v, end) && v < Span(5) && root in own && own[root].level == 4
    requires Missing(x.m.mem, x.level, x.t, v, end) <= |x.m.pool|
    requires MarkedTo(x.m.mem, 4, root, v, x.level, x.t)
    ensures var y := WalkTo(x, root, v, end);
      Walking(y, own', root, low, v, end) && y.level == end && MarkedTo(y.m.mem, 4, root, v, end, y.t)
    decreases x.level
  {
    own' := own;
    if x.level > end {
      var own1 := PlainStep(x, own, root, low, v, end);
      FactsOf(Down(x, root, v).m.mem, own1, root, low, Pending(own1, root, Down(x, root, v).t, Down(x, root, v).upper),
              root, 0);
      DownMarks(x, own, root, low, v, end);
      StillMissing(x, own, root, low, v, end);
      own' := WalkMarks(Down(x, root, v), own1, root, low, v, end);
    }
  }

  /** Serving a page without a reclaim leaves every entry on the way to it, found or new, marked as just used: with
      the accessed bit set and the full access record. */
  lemma WayIsMarked(m: Memory, own: map<nat, Place>, root: nat, low: nat, v: nat, end: nat, attr: nat)
    returns (t: nat)
    requires Sound(m, own, root, low) && 1 <= end <= 3 && Missing(m.mem, 4, root, v, end) <= |m.pool|
    requires InSpace(v, end, 1) && Untranslated(m.mem, root, v, end, 1)
    ensures MarkedTo(MapOne(m, root, v, end, attr).mem, 4, root, v, end, t)
  {
    FirstClear(m.mem, own, root, low, v, end, 1);
    Start(AtRoot(m, root), own, low, v, end);
    var own' := WalkMarks(AtRoot(m, root), own, root, low, v, end);
    var y := WalkTo(AtRoot(m, root), root, v, end);
    t := y.t;
    FinishMarks(y, own', root, low, v, end, attr);
  }

  lemma FinishMarks(y: Walker, own: map<nat, Place>, root: nat, low: nat, v: nat, end: nat, attr: nat)
    requires Walking(y, own, root, low, v, end) && y.level == end <= 3 && MarkedTo(y.m.mem, 4, root, v, end, y.t)
    ensures MarkedTo(Finish(y, v, end, attr), 4, root, v, end, y.t)
  {
    TreeIsLinked(y.m.mem, own, root, low, Pending(own, root, y.t, y.upper));
    FactsOf(y.m.mem, own, root, low, Pending(own, root, y.t, y.upper), root, 0);
    FinishSameAbove(y, own, v, end, attr);
    MarkedSame(y.m.mem, Finish(y, v, end, attr), own, root, 4, root, v, end, y.t);
  }

  lemma FinishSameAbove(y: Walker, own: map<nat, Place>, v: nat, end: nat, attr: nat)
    requires y.t in y.m.mem && |y.m.mem[y.t]| == 512 && y.t in own && own[y.t].level == end
    requires y.upper.Some? ==> y.upper.value.table in y.m.mem && y.upper.value.index < |y.m.mem[y.upper.value.table]|
    ensures SameAbove(y.m.mem, Finish(y, v, end, attr), own, end)
  {
  }

  // ---------------------------------------------------------------- reclaiming from a tree without exact counts

  /** The place is below the entry at this level and position. */
  ghost predicate Beneath(p: Place, level: nat, position: nat)
    decreases level - p.level
  {
    p.level < level &&
    if p.level + 1 == level then p.prefix == position
    else Beneath(Place(p.level + 1, p.prefix / 512, 0), level, position)
  }

  lemma {:induction false} BeneathParent(p: Place, q: Place, level: nat, position: nat)
    requires q.level == p.level + 1 < level && q.prefix == p.prefix / 512
    ensures Beneath(p, level, position) == Beneath(q, level, position)
  {
    BeneathSame(q, Place(p.level + 1, p.prefix / 512, 0), level, position);
  }

  lemma BeneathSame(p: Place, q: Place, level: nat, position: nat)
    requires q.level == p.level && q.prefix == p.prefix
    ensures Beneath(p, level, position) == Beneath(q, level, position)
  {
  }

  /** The places left when the entry at this level and position is cleared. */
  ghost function Prune(own: map<nat, Place>, level: nat, position: nat): map<nat, Place> {
    map t | t in own && !Beneath(own[t], level, position) :: own[t]
  }

  ghost predicate Within(own': map<nat, Place>, own: map<nat, Place>) {
    forall t {:trigger own'[t]} {:trigger t in own'} :: t in own' ==> t in own && own'[t] == own[t]
  }

  ghost predicate Off(pool: seq<nat>, own: map<nat, Place>) {
    forall p {:trigger p in pool} {:trigger p in own} :: p in pool ==> p !in own
  }

  lemma PruneLinked(mem: Tables, own: map<nat, Place>, root: nat, s: Slot)
    requires Linked(mem, own, root) && s.table in own && s.index < 512 && PointsDown(Get(mem, s), own[s.table].level)
    ensures var own' := Prune(own, own[s.table].level, Position(own, s));
      Linked(Drop(mem, s), own', root) && Get(mem, s).addr !in own'
  {
    var own' := Prune(own, own[s.table].level, Position(own, s));
    LinksOf(mem, own, root, s.table, s.index);
    LinksOf(mem, own, root, root, 0);
    forall t, k | t in own' && 0 <= k < 512 ensures Links(Drop(mem, s), own', root, t, k) {
      LinksOf(mem, own, root, t, k);
      if t != root {
        LinksOf(mem, own, root, own[t].parent, own[t].prefix % 512);
        PruneHangs(mem, own, root, s, t);
      }
      if PointsDown(Drop(mem, s)[t][k], own[t].level) {
        PruneLeads(mem, own, root, s, t, k);
      }
    }
    LinkedOf(Drop(mem, s), own', root);
  }

  lemma PruneHangs(mem: Tables, own: map<nat, Place>, root: nat, s: Slot, t: nat)
    requires Links(mem, own, root, s.table, s.index) && PointsDown(Get(mem, s), own[s.table].level)
    requires t in own && t != root && Hangs(mem, own, t) && !Beneath(own[t], own[s.table].level, Position(own, s))
    ensures Hangs(Drop(mem, s), Prune(own, own[s.table].level, Position(own, s)), t)
  {
    var p := own[t].parent;
    if own[p].level < own[s.table].level {
      BeneathParent(own[t], own[p], own[s.table].level, Position(own, s));
    }
  }

  lemma PruneLeads(mem: Tables, own: map<nat, Place>, root: nat, s: Slot, t: nat, k: nat)
    requires Linked(mem, own, root) && Links(mem, own, root, s.table, s.index) && Links(mem, own, root, t, k)
    requires PointsDown(Get(mem, s), own[s.table].level) && PointsDown(mem[t][k], own[t].level) && Slot(t, k) != s
    requires !Beneath(own[t], own[s.table].level, Position(own, s))
    ensures !Beneath(own[mem[t][k].addr], own[s.table].level, Position(own, s))
  {
    var level := own[s.table].level;
    if own[t].level == level {
      if own[t].prefix == own[s.table].prefix {
        PlaceUnique(mem, own, root, t, s.table);
      }
    } else if own[t].level < level {
      BeneathParent(own[mem[t][k].addr], own[t], level, Position(own, s));
    }
  }

  lemma ShapeLinked(mem: Tables, mem': Tables, own: map<nat, Place>, root: nat)
    requires Linked(mem, own, root) && SameShape(mem, mem')
    ensures Linked(mem', own, root)
  {
    LinksOf(mem, own, root, root, 0);
    forall t, k | t in own && 0 <= k < 512 ensures Links(mem', own, root, t, k) {
      LinksOf(mem, own, root, t, k);
    }
    LinkedOf(mem', own, root);
  }

  lemma SetSubLinked(mem: Tables, own: map<nat, Place>, root: nat, s: Slot, n: nat)
    requires Linked(mem, own, root) && s.table in mem && s.index < |mem[s.table]|
    ensures Linked(SetSub(mem, s, n), own, root)
  {
    LinksOf(mem, own, root, root, 0);
    forall t, k | t in own && 0 <= k < 512 ensures Links(SetSub(mem, s, n), own, root, t, k) {
      LinksOf(mem, own, root, t, k);
    }
    LinkedOf(SetSub(mem, s, n), own, root);
  }

  /** Clearing an entry and releasing the table under it. */
  lemma FreeLinked(m: Memory, own: map<nat, Place>, root: nat, s: Slot) returns (own': map<nat, Place>)
    requires Linked(m.mem, own, root) && Off(m.pool, own) && s.table in own && s.index < 512
    requires PointsDown(Get(m.mem, s), own[s.table].level)
    ensures Linked(Free(m, s).mem, own', root) && Off(Free(m, s).pool, own') && Within(own', own)
    ensures forall t {:trigger t in own'} :: t in own && own[t].level >= own[s.table].level ==> t in own'
    ensures Get(m.mem, s).addr !in own'
  {
    LinksOf(m.mem, own, root, s.table, s.index);
    PruneLinked(m.mem, own, root, s);
    own' := Prune(own, own[s.table].level, Position(own, s));
  }

  /** The tables above the level of a cleared entry are where they were. */
  lemma PathStays(m: Memory, own: map<nat, Place>, own': map<nat, Place>, root: nat, c: Victim, s: Slot)
    requires Linked(m.mem, own, root) && OnPath(m.mem, own, root, c, s.table) && s == SlotOf(m.mem, root, c)
    requires 2 <= c.level <= 4 && s.index < 512 && PointsDown(Get(m.mem, s), c.level) && Within(own', own)
    requires forall t {:trigger t in own'} :: t in own && own[t].level >= c.level ==> t in own'
    ensures OnPath(Free(m, s).mem, own', root, c, s.table)
  {
    LinksOf(m.mem, own, root, root, 0);
    LinksOf(m.mem, own, root, s.table, s.index);
    if c.level < 4 {
      LinksOf(m.mem, own, root, own[s.table].parent, 0);
    }
  }

  lemma {:induction false} ClimbLinked(m: Memory, own: map<nat, Place>, root: nat, c: Victim, t: nat)
    returns (own': map<nat, Place>)
    requires Linked(m.mem, own, root) && Off(m.pool, own) && 2 <= c.level <= 4 && OnPath(m.mem, own, root, c, t)
    ensures var m' := Climb(m, root, c); Linked(m'.mem, own', root) && Off(m'.pool, own') && Within(own', own)
    decreases 4 - c.level
  {
    own' := own;
    if c.level < 4 {
      var up := c.(level := c.level + 1);
      var u := SlotOf(m.mem, root, up);
      UpIsAbove(m.mem, own, root, c, t);
      if Get(m.mem, u).sub == 0 {
        var own1 := FreeLinked(m, own, root, u);
        PathStays(m, own, own1, root, up, u);
        own' := ClimbLinked(Free(m, u), own1, root, up, u.table);
      } else {
        SetSubLinked(m.mem, own, root, u, Get(m.mem, u).sub - 1);
      }
    }
  }

  lemma UpIsAbove(mem: Tables, own: map<nat, Place>, root: nat, c: Victim, t: nat)
    requires Linked(mem, own, root) && 2 <= c.level < 4 && OnPath(mem, own, root, c, t)
    ensures var up := c.(level := c.level + 1);
      var u := SlotOf(mem, root, up);
      && u == Above(own, t) && u.table in own && own[u.table].level == up.level && u.index < 512 && u.table in mem
      && |mem[u.table]| == 512 && PointsDown(Get(mem, u), up.level) && OnPath(mem, own, root, up, u.table)
  {
    LinksOf(mem, own, root, root, 0);
    LinksOf(mem, own, root, t, 0);
    LinksOf(mem, own, root, own[t].parent, own[t].prefix % 512);
  }

  /** Even where counts are wrong, a reclaim leaves a tree, and no page of the pool in it. */
  lemma ReclaimLinked(m: Memory, own: map<nat, Place>, root: nat) returns (own': map<nat, Place>)
    requires Linked(m.mem, own, root) && Off(m.pool, own)
    ensures var m' := Reclaim(m, root); Linked(m'.mem, own', root) && Off(m'.pool, own') && Within(own', own)
    ensures |AllCandidates(m.mem, root)| > 0 ==> |Reclaim(m, root).pool| > 0
  {
    var cs := AllCandidates(m.mem, root);
    var aged := m.(mem := AgeAll(m.mem, root, cs));
    AgeAllShape(m.mem, root, cs);
    ShapeLinked(m.mem, aged.mem, own, root);
    own' := own;
    if |cs| > 0 {
      CandidatesApart(m.mem, own, root);
      var i := PickIsFirstLeast(m.mem, root, cs);
      own' := ReleaseLinked(m, aged, own, root, cs[i]);
    }
  }

  lemma ReleaseLinked(m: Memory, aged: Memory, own: map<nat, Place>, root: nat, c: Victim)
    returns (own': map<nat, Place>)
    requires Linked(m.mem, own, root) && Off(aged.pool, own) && SameShape(m.mem, aged.mem)
    requires Linked(aged.mem, own, root) && c in AllCandidates(m.mem, root)
    ensures var m' := Climb(Free(aged, SlotOf(aged.mem, root, c)), root, c);
      Linked(m'.mem, own', root) && Off(m'.pool, own') && Within(own', own) && |m'.pool| > 0
  {
    var s := SlotOf(aged.mem, root, c);
    CandidateNames(m.mem, own, root, c);
    NamedPath(m.mem, own, root, c);
    SameSlot(m.mem, aged.mem, root, c);
    SameSlot(m.mem, aged.mem, root, c.(level := 3));
    SameGet(m.mem, aged.mem, s);
    var own1 := FreeLinked(aged, own, root, s);
    PathStays(aged, own, own1, root, c, s);
    own' := ClimbLinked(Free(aged, s), own1, root, c, s.table);
    ClimbPool(Free(aged, s), root, c);
  }

  // ---------------------------------------------------------------- a walk that goes on in a released table

  /** The walk has left the tree: what it writes from now on, no page's translation passes through. */
  ghost predicate Astray(x: Walker, own: map<nat, Place>, root: nat, v: nat) {
    && Linked(x.m.mem, own, root) && Off(x.m.pool, own) && x.t !in own && View(x.m.mem, 4, root, v) == None
    && (x.t in x.m.mem ==> forall k {:trigger x.m.mem[x.t][k]} :: 0 <= k < |x.m.mem[x.t]| && x.m.mem[x.t][k].p ==>
          x.m.mem[x.t][k].addr == x.t)
  }

  /** The tables of `own` are the same in both. */
  ghost predicate Agree(mem: Tables, mem': Tables, own: map<nat, Place>) {
    forall t {:trigger mem'[t]} {:trigger t in own} :: t in own && t in mem ==> t in mem' && mem'[t] == mem[t]
  }

  lemma AgreeLinked(mem: Tables, mem': Tables, own: map<nat, Place>, root: nat)
    requires Linked(mem, own, root) && Agree(mem, mem', own)
    ensures Linked(mem', own, root)
  {
    LinksOf(mem, own, root, root, 0);
    forall t, k | t in own && 0 <= k < 512 ensures Links(mem', own, root, t, k) {
      LinksOf(mem, own, root, t, k);
      if t != root {
        LinksOf(mem, own, root, own[t].parent, 0);
      }
    }
    LinkedOf(mem', own, root);
  }

  lemma {:induction false} AgreeView(mem: Tables, mem': Tables, own: map<nat, Place>, root: nat, t: nat, v: nat)
    requires Linked(mem, own, root) && Agree(mem, mem', own) && t in own
    ensures View(mem', own[t].level, t, v) == View(mem, own[t].level, t, v)
    decreases own[t].level
  {
    LinksOf(mem, own, root, t, Index(v, own[t].level));
    if PointsDown(mem[t][Index(v, own[t].level)], own[t].level) {
      AgreeView(mem, mem', own, root, mem[t][Index(v, own[t].level)].addr, v);
    }
  }

  /** A page from the pool for a table that is not in the tree. */
  lemma StrayTable(w: Walker, own: map<nat, Place>, root: nat, v: nat)
    requires Linked(w.m.mem, own, root) && Off(w.m.pool, own) && w.t !in own && View(w.m.mem, 4, root, v) == None
    requires |w.m.pool| > 0 && w.level > 0
    ensures Astray(NewTable(w, v), own, root, v)
  {
    var y := NewTable(w, v);
    LinksOf(w.m.mem, own, root, root, 0);
    assert y.t in w.m.pool;
    assert Agree(w.m.mem, y.m.mem, own);
    AgreeLinked(w.m.mem, y.m.mem, own, root);
    AgreeView(w.m.mem, y.m.mem, own, root, root, v);
    forall p | p in y.m.pool ensures p !in own {
      assert p in w.m.pool;
    }
  }

  lemma AstrayStep(x: Walker, own: map<nat, Place>, root: nat, v: nat) returns (own': map<nat, Place>)
    requires Astray(x, own, root, v)
    ensures Astray(Down(x, root, v), own', root, v)
  {
    var s := Slot(x.t, Index(v, x.level));
    var y := Down(x, root, v);
    own' := own;
    if x.level > 0 && x.t in x.m.mem && |x.m.mem[x.t]| == 512 {
      if Get(x.m.mem, s).p {
        LinksOf(x.m.mem, own, root, root, 0);
        AgreeLinked(x.m.mem, y.m.mem, own, root);
        AgreeView(x.m.mem, y.m.mem, own, root, root, v);
      } else {
        if |x.m.pool| == 0 {
          own' := ReclaimLinked(x.m, own, root);
          ReclaimShrunk(x.m, root);
          ShrunkView(x.m.mem, Reclaim(x.m, root).mem, 4, root, v);
        }
        if |Supplied(x.m, root).pool| > 0 {
          StrayTable(x.(m := Supplied(x.m, root)), own', root, v);
        } else {
          own' := own;
        }
      }
    }
  }

  lemma {:induction false} AstrayWalk(x: Walker, own: map<nat, Place>, root: nat, v: nat, end: nat)
    returns (own': map<nat, Place>)
    requires Astray(x, own, root, v)
    ensures Astray(WalkTo(x, root, v, end), own', root, v)
    decreases x.level
  {
    own' := own;
    if x.level > end && Down(x, root, v).level < x.level {
      own' := AstrayStep(x, own, root, v);
      own' := AstrayWalk(Down(x, root, v), own', root, v, end);
    }
  }

  /** All tables on the way down to a table of the tree are in it. */
  lemma {:induction false} WayStays(mem: Tables, mem': Tables, own: map<nat, Place>, own': map<nat, Place>, root: nat,
                                    y: nat, t: nat, v: nat)
    requires Linked(mem, own, root) && Linked(mem', own', root) && Within(own', own)
    requires y in own && t in own' && own[t].level <= own[y].level
    requires own[y].prefix == At(v, own[y].level + 1) && own[t].prefix == At(v, own[t].level + 1)
    ensures forall p {:trigger p in own'} :: p in Path(mem, own[y].level, y, v, own[t].level) ==> p in own'
    decreases own[y].level
  {
    if own[t].level == own[y].level {
      PlaceUnique(mem, own, root, y, t);
    } else {
      Towards(mem, own, root, y, t, v);
      var z := mem[y][Index(v, own[y].level)].addr;
      WayStays(mem, mem', own, own', root, z, t, v);
      assert z in Path(mem, own[z].level, z, v, own[t].level);
      LinksOf(mem', own', root, z, 0);
    }
  }

  /** A reclaim that does not spare the way leaves the walk in a table that is no longer in the tree. */
  lemma GoAstray(x: Walker, own: map<nat, Place>, root: nat, low: nat, v: nat, end: nat) returns (own': map<nat, Place>)
    requires Walking(x, own, root, low, v, end) && end < x.level && v < Span(5) && Stocked(x.m, root, low)
    requires !Spared(x, root, v)
    ensures Astray(Down(x, root, v), own', root, v) && Down(x, root, v).level < x.level
  {
    var bias := Pending(own, root, x.t, x.upper);
    var m1 := Reclaim(x.m, root);
    TreeIsLinked(x.m.mem, own, root, low, bias);
    var t :| t in Pages(x.m.mem, x.m.pool) && t != root && t != low;
    SomeCandidate(x.m.mem, own, root, low, bias, t);
    own' := ReclaimLinked(x.m, own, root);
    NowhereYet(x, own, root, low, v, end);
    ReclaimShrunk(x.m, root);
    ShrunkView(x.m.mem, m1.mem, 4, root, v);
    LinksOf(x.m.mem, own, root, root, 0);
    if x.t in own' {
      WayStays(x.m.mem, m1.mem, own, own', root, root, x.t, v);
      assert false;
    }
    StrayTable(x.(m := m1), own', root, v);
  }

  lemma NowhereYet(x: Walker, own: map<nat, Place>, root: nat, low: nat, v: nat, end: nat)
    requires Walking(x, own, root, low, v, end) && !Get(x.m.mem, Slot(x.t, Index(v, x.level))).p
    ensures View(x.m.mem, 4, root, v) == None
  {
    ViaTable(x.m.mem, own, root, low, Pending(own, root, x.t, x.upper), x.t, v);
  }

  lemma {:induction false} WalkAstray(x: Walker, own: map<nat, Place>, root: nat, low: nat, v: nat, end: nat)
    returns (own': map<nat, Place>)
    requires Walking(x, own, root, low, v, end) && v < Span(5) && Stocked(x.m, root, low) && !AllSpared(x, root, v, end)
    ensures Astray(WalkTo(x, root, v, end), own', root, v)
    decreases x.level
  {
    if Spared(x, root, v) {
      own' := DownStep(x, own, root, low, v, end);
      StockedOn(x.m, Down(x, root, v).m, root, low);
      own' := WalkAstray(Down(x, root, v), own', root, low, v, end);
    } else {
      own' := GoAstray(x, own, root, low, v, end);
      own' := AstrayWalk(Down(x, root, v), own', root, v, end);
    }
  }

  lemma FillAstray(x: Walker, own: map<nat, Place>, root: nat, v: nat, end: nat, attr: nat)
    requires Astray(x, own, root, v) && x.t in x.m.mem && |x.m.mem[x.t]| == 512
    ensures View(Filled(x, v, end, attr), 4, root, v) == None
  {
    LinksOf(x.m.mem, own, root, root, 0);
    AgreeView(x.m.mem, Filled(x, v, end, attr), own, root, root, v);
  }

  /** The page asked for is mapped if and only if no reclaim on the way releases a table that the walk is in. */
  lemma MappedIffSpared(m: Memory, own: map<nat, Place>, root: nat, low: nat, v: nat, end: nat, attr: nat)
    requires Sound(m, own, root, low) && 1 <= end <= 3 && v < Span(5) && Clear(m.mem, 4, root, v, end)
    ensures var now := View(MapOne(m, root, v, end, attr).mem, 4, root, v);
      now == if AllSpared(AtRoot(m, root), root, v, end) then Some(Identity(v, end, attr)) else None
  {
    var x := AtRoot(m, root);
    if AllSpared(x, root, v, end) {
      var own' := MapOneKeeps(m, own, root, low, v, end, attr);
    } else {
      Start(x, own, low, v, end);
      var own' := WalkAstray(x, own, root, low, v, end);
      var y := WalkTo(x, root, v, end);
      if y.t in y.m.mem && |y.m.mem[y.t]| == 512 {
        FillAstray(y, own', root, v, end, attr);
        if y.upper.Some? && y.upper.value.table in y.m.mem && y.upper.value.index < |y.m.mem[y.upper.value.table]| {
          ToldView(Filled(y, v, end, attr), y.upper, root, v);
        }
      }
    }
  }
}
