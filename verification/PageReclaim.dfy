/** ReclaimPages of X64/PageTbl.c: it ages the access records of all tables that lead nowhere, takes the one
    used least recently off the tree, and then the tables above it that are left empty. */
module PageReclaim {
  import opened Common
  import opened Sums
  import opened PagingTree

  /** The tables and the pool. */
  datatype Memory = Memory(mem: Tables, pool: seq<nat>)

  /** An entry chosen for release, as Pml4Index, PdptIndex and PdtIndex; those below its level are 0. */
  datatype Victim = Victim(level: nat, i4: nat, i3: nat, i2: nat)

  function TableAt(mem: Tables, t: nat): (r: Table)
    ensures |r| == 512
  {
    if t in mem && |mem[t]| == 512 then mem[t] else Blank()
  }

  function SlotOf(mem: Tables, root: nat, c: Victim): Slot {
    if c.level == 4 then Slot(root, c.i4)
    else
      var pdpt := Get(mem, Slot(root, c.i4)).addr;
      if c.level == 3 then Slot(pdpt, c.i3) else Slot(Get(mem, Slot(pdpt, c.i3)).addr, c.i2)
  }

  // ---------------------------------------------------------------- the candidates, in the order of the scan

  function Skip(e: Entry): bool { !e.p || e.pmnt }

  /** An entry that keeps its table from being a candidate. */
  predicate Holds(e: Entry) { e.pmnt || (e.p && !e.ps) }

  predicate HoldsAny(t: Table, n: nat)
    requires n <= |t|
  {
    n > 0 && (HoldsAny(t, n - 1) || Holds(t[n - 1]))
  }

  function PdtCandidates(t: Table, i4: nat, i3: nat, n: nat): seq<Victim>
    requires n <= |t|
  {
    if n == 0 then []
    else PdtCandidates(t, i4, i3, n - 1) + (if Skip(t[n - 1]) || t[n - 1].ps then [] else [Victim(2, i4, i3, n - 1)])
  }

  function PdptCandidates(mem: Tables, t: Table, i4: nat, n: nat): seq<Victim>
    requires n <= |t|
  {
    if n == 0 then [] else PdptCandidates(mem, t, i4, n - 1) + UnderPdpte(mem, t[n - 1], i4, n - 1)
  }

  /** What one PDPT entry contributes. */
  function UnderPdpte(mem: Tables, e: Entry, i4: nat, i3: nat): seq<Victim> {
    if Skip(e) || e.ps then []
    else PdtCandidates(TableAt(mem, e.addr), i4, i3, 512)
         + (if HoldsAny(TableAt(mem, e.addr), 512) then [] else [Victim(3, i4, i3, 0)])
  }

  function Candidates(mem: Tables, t: Table, n: nat): seq<Victim>
    requires n <= |t|
  {
    if n == 0 then [] else Candidates(mem, t, n - 1) + UnderPml4e(mem, t[n - 1], n - 1)
  }

  function UnderPml4e(mem: Tables, e: Entry, i4: nat): seq<Victim> {
    if Skip(e) then []
    else PdptCandidates(mem, TableAt(mem, e.addr), i4, 512)
         + (if HoldsAny(TableAt(mem, e.addr), 512) then [] else [Victim(4, i4, 0, 0)])
  }

  // ---------------------------------------------------------------- aging

  /** What GetAndUpdateAccNum answers. */
  function Rank(e: Entry): nat { if e.a then 15 else e.acc }

  /** What GetAndUpdateAccNum leaves. */
  function Age(e: Entry): Entry {
    if e.a then e.(a := false, acc := 7) else if e.acc != 0 then e.(acc := e.acc - 1) else e
  }

  function AgeAt(mem: Tables, s: Slot): Tables {
    if s.table in mem && s.index < |mem[s.table]| then Put(mem, s, Age(Get(mem, s))) else mem
  }

  /** The tables after the candidates cs have been aged, one after the other. */
  function AgeAll(mem: Tables, root: nat, cs: seq<Victim>): Tables {
    if |cs| == 0 then mem else AgeAt(AgeAll(mem, root, cs[..|cs| - 1]), SlotOf(mem, root, cs[|cs| - 1]))
  }

  /** MinAcc and the indices saved with it. */
  datatype Best = Best(rank: nat, victim: Victim)

  function Better(best: Option<Best>, rank: nat, c: Victim): Option<Best> {
    if best.None? || rank < best.value.rank then Some(Best(rank, c)) else best
  }

  /** The choice after the candidates cs. */
  function Pick(mem: Tables, root: nat, cs: seq<Victim>): Option<Best> {
    if |cs| == 0 then None
    else Better(Pick(mem, root, cs[..|cs| - 1]),
                Rank(Get(AgeAll(mem, root, cs[..|cs| - 1]), SlotOf(mem, root, cs[|cs| - 1]))), cs[|cs| - 1])
  }

  lemma {:induction false} AgeAllShape(mem: Tables, root: nat, cs: seq<Victim>)
    ensures SameShape(mem, AgeAll(mem, root, cs))
  {
    if |cs| > 0 {
      AgeAllShape(mem, root, cs[..|cs| - 1]);
    }
  }

  /** Aging touches the candidates only. */
  lemma {:induction false} AgeAllElsewhere(mem: Tables, root: nat, cs: seq<Victim>, s: Slot)
    requires forall i :: 0 <= i < |cs| ==> SlotOf(mem, root, cs[i]) != s
    ensures Get(AgeAll(mem, root, cs), s) == Get(mem, s)
  {
    if |cs| > 0 {
      AgeAllElsewhere(mem, root, cs[..|cs| - 1], s);
    }
  }

  /** What the scan leaves in the entry of its i-th candidate: one accessed since the last scan is marked as not
      accessed and gets the full record, any other loses one from its record, down to 0. */
  lemma {:induction false} AgeAllAt(mem: Tables, root: nat, cs: seq<Victim>, i: nat)
    requires Apart2(mem, root, cs) && i < |cs|
    requires var s := SlotOf(mem, root, cs[i]); s.table in mem && s.index < |mem[s.table]|
    ensures var e := Get(mem, SlotOf(mem, root, cs[i]));
      Get(AgeAll(mem, root, cs), SlotOf(mem, root, cs[i]))
        == if e.a then e.(a := false, acc := 7) else if e.acc > 0 then e.(acc := e.acc - 1) else e
  {
    var front, s := cs[..|cs| - 1], SlotOf(mem, root, cs[i]);
    AgeAllShape(mem, root, front);
    if i == |front| {
      forall k | 0 <= k < |front| ensures SlotOf(mem, root, front[k]) != s { assert cs[k] == front[k]; }
      AgeAllElsewhere(mem, root, front, s);
    } else {
      forall k, l | 0 <= k < l < |front| ensures SlotOf(mem, root, front[k]) != SlotOf(mem, root, front[l]) {
        assert cs[k] == front[k] && cs[l] == front[l];
      }
      AgeAllAt(mem, root, front, i);
      assert SlotOf(mem, root, cs[|front|]) != s;
    }
  }

  ghost predicate Apart2(mem: Tables, root: nat, cs: seq<Victim>) {
    forall i, j {:trigger SlotOf(mem, root, cs[i]), SlotOf(mem, root, cs[j])} ::
      0 <= i < j < |cs| ==> SlotOf(mem, root, cs[i]) != SlotOf(mem, root, cs[j])
  }

  function RankAt(mem: Tables, root: nat, c: Victim): nat { Rank(Get(mem, SlotOf(mem, root, c))) }

  /** b is the i-th candidate, no candidate has a smaller rank, and none before it has the same. */
  ghost predicate FirstLeast(mem: Tables, root: nat, cs: seq<Victim>, b: Best, i: nat) {
    && i < |cs| && cs[i] == b.victim && b.rank == RankAt(mem, root, cs[i])
    && (forall j {:trigger cs[j]} :: 0 <= j < |cs| ==> b.rank <= RankAt(mem, root, cs[j]))
    && (forall j {:trigger cs[j]} :: 0 <= j < i ==> b.rank < RankAt(mem, root, cs[j]))
  }

  lemma {:induction false} PickIsFirstLeast(mem: Tables, root: nat, cs: seq<Victim>) returns (i: nat)
    requires Apart2(mem, root, cs) && |cs| > 0
    ensures Pick(mem, root, cs).Some? && FirstLeast(mem, root, cs, Pick(mem, root, cs).value, i)
  {
    var front, last := cs[..|cs| - 1], cs[|cs| - 1];
    PickLast(mem, root, cs);
    assert cs == front + [last];
    if |front| == 0 {
      i := 0;
    } else {
      var k := PickIsFirstLeast(mem, root, front);
      i := LeastMore(mem, root, front, Pick(mem, root, front).value, k, last);
    }
  }

  /** The aging so far has not touched the last candidate. */
  lemma PickLast(mem: Tables, root: nat, cs: seq<Victim>)
    requires Apart2(mem, root, cs) && |cs| > 0
    ensures var front, last := cs[..|cs| - 1], cs[|cs| - 1];
      Apart2(mem, root, front) && Pick(mem, root, cs) == Better(Pick(mem, root, front), RankAt(mem, root, last), last)
  {
    var front, last := cs[..|cs| - 1], cs[|cs| - 1];
    forall i | 0 <= i < |front| ensures SlotOf(mem, root, front[i]) != SlotOf(mem, root, last) {
      assert cs[i] == front[i];
    }
    AgeAllElsewhere(mem, root, front, SlotOf(mem, root, last));
  }

  /** What FirstLeast says, in terms of the accessed bits and the access records: with one candidate not accessed since
      the last scan, the victim is not accessed either and has the least record of those that are not, and is the first
      such; otherwise it is the first candidate. */
  ghost predicate LeastUsed(mem: Tables, root: nat, cs: seq<Victim>, i: nat) {
    && i < |cs|
    && var e := Get(mem, SlotOf(mem, root, cs[i]));
       forall j {:trigger cs[j]} :: 0 <= j < |cs| ==>
         var f := Get(mem, SlotOf(mem, root, cs[j]));
         if e.a then f.a && i == 0 else f.a || (if j < i then e.acc < f.acc else e.acc <= f.acc)
  }

  /** The victim is the first of the candidates least recently used. */
  ghost predicate TakesLeastUsed(mem: Tables, root: nat, c: Victim) {
    exists i: nat {:trigger LeastUsed(mem, root, AllCandidates(mem, root), i)} ::
      LeastUsed(mem, root, AllCandidates(mem, root), i) && AllCandidates(mem, root)[i] == c
  }

  lemma FirstLeastIs(mem: Tables, root: nat, cs: seq<Victim>, b: Best, i: nat)
    requires FirstLeast(mem, root, cs, b, i)
    ensures LeastUsed(mem, root, cs, i)
  {
    forall j | 0 <= j < |cs|
      ensures var e, f := Get(mem, SlotOf(mem, root, cs[i])), Get(mem, SlotOf(mem, root, cs[j]));
        if e.a then f.a && i == 0 else f.a || (if j < i then e.acc < f.acc else e.acc <= f.acc)
    {
      assert b.rank <= RankAt(mem, root, cs[j]);
      assert i > 0 ==> b.rank < RankAt(mem, root, cs[0]);
    }
  }

  lemma LeastMore(mem: Tables, root: nat, cs: seq<Victim>, b: Best, k: nat, c: Victim) returns (i: nat)
    requires FirstLeast(mem, root, cs, b, k)
    ensures FirstLeast(mem, root, cs + [c], Better(Some(b), RankAt(mem, root, c), c).value, i)
  {
    i := if RankAt(mem, root, c) < b.rank then |cs| else k;
  }

  // ---------------------------------------------------------------- what the candidates are

  lemma {:induction false} PdtShape(t: Table, i4: nat, i3: nat, n: nat, c: Victim)
    requires n <= |t|
    ensures c in PdtCandidates(t, i4, i3, n) <==>
      c == Victim(2, i4, i3, c.i2) && c.i2 < n && !Skip(t[c.i2]) && !t[c.i2].ps
  {
    if n > 0 { PdtShape(t, i4, i3, n - 1, c); }
  }

  lemma UnderPdpteShape(mem: Tables, e: Entry, i4: nat, i3: nat, c: Victim)
    ensures (c in UnderPdpte(mem, e, i4, i3)) == (!Skip(e) && !e.ps && (
      || (c == Victim(3, i4, i3, 0) && !HoldsAny(TableAt(mem, e.addr), 512))
      || (c == Victim(2, i4, i3, c.i2) && c.i2 < 512 && !Skip(TableAt(mem, e.addr)[c.i2])
         && !TableAt(mem, e.addr)[c.i2].ps)))
  {
    PdtShape(TableAt(mem, e.addr), i4, i3, 512, c);
  }

  lemma InBoth(a: seq<Victim>, b: seq<Victim>, c: Victim)
    ensures c in a + b <==> c in a || c in b
  {
  }

  /** Victim c is under the first n entries of PDPT t; the quantifier keeps the scan itself out of sight. */
  ghost predicate InPdpt(mem: Tables, t: Table, i4: nat, n: nat, c: Victim) {
    forall m {:trigger InPdptScan(mem, t, i4, m, c)} :: m == n ==> InPdptScan(mem, t, i4, m, c)
  }

  ghost predicate InPdptScan(mem: Tables, t: Table, i4: nat, n: nat, c: Victim) {
    n <= |t| && c in PdptCandidates(mem, t, i4, n)
  }

  ghost predicate InPdpte(mem: Tables, e: Entry, i4: nat, i3: nat, c: Victim) {
    forall i {:trigger InPdpteScan(mem, e, i4, i, c)} :: i == i3 ==> InPdpteScan(mem, e, i4, i, c)
  }

  ghost predicate InPdpteScan(mem: Tables, e: Entry, i4: nat, i3: nat, c: Victim) { c in UnderPdpte(mem, e, i4, i3) }

  lemma PdptMore(mem: Tables, t: Table, i4: nat, n: nat, c: Victim)
    requires n <= |t|
    ensures InPdpt(mem, t, i4, n, c) <==>
      n > 0 && (InPdpt(mem, t, i4, n - 1, c) || InPdpte(mem, t[n - 1], i4, n - 1, c))
  {
    assert InPdpt(mem, t, i4, n, c) <==> InPdptScan(mem, t, i4, n, c);
    if n > 0 {
      InBoth(PdptCandidates(mem, t, i4, n - 1), UnderPdpte(mem, t[n - 1], i4, n - 1), c);
      assert InPdpt(mem, t, i4, n - 1, c) <==> InPdptScan(mem, t, i4, n - 1, c);
      assert InPdpte(mem, t[n - 1], i4, n - 1, c) <==> InPdpteScan(mem, t[n - 1], i4, n - 1, c);
    }
  }

  lemma PdpteIndex(mem: Tables, e: Entry, i4: nat, i3: nat, c: Victim)
    ensures InPdpte(mem, e, i4, i3, c) ==> c.i3 == i3 && c.i4 == i4 && 2 <= c.level <= 3
  {
    if InPdpte(mem, e, i4, i3, c) {
      assert InPdpteScan(mem, e, i4, i3, c);
      UnderPdpteIndex(mem, e, i4, i3, c);
    }
  }

  lemma {:induction false} InPdptShape(mem: Tables, t: Table, i4: nat, n: nat, c: Victim)
    requires n <= |t|
    ensures InPdpt(mem, t, i4, n, c) <==> c.i3 < n && InPdpte(mem, t[c.i3], i4, c.i3, c)
  {
    PdptMore(mem, t, i4, n, c);
    if n > 0 {
      InPdptShape(mem, t, i4, n - 1, c);
      PdpteIndex(mem, t[n - 1], i4, n - 1, c);
    }
  }

  lemma PdptShape(mem: Tables, t: Table, i4: nat, n: nat, c: Victim)
    requires n <= |t|
    ensures c in PdptCandidates(mem, t, i4, n) <==> c.i3 < n && c in UnderPdpte(mem, t[c.i3], i4, c.i3)
  {
    InPdptShape(mem, t, i4, n, c);
    assert InPdpt(mem, t, i4, n, c) <==> InPdptScan(mem, t, i4, n, c);
    if c.i3 < n { assert InPdpte(mem, t[c.i3], i4, c.i3, c) <==> InPdpteScan(mem, t[c.i3], i4, c.i3, c); }
  }

  lemma UnderPdpteIndex(mem: Tables, e: Entry, i4: nat, i3: nat, c: Victim)
    ensures c in UnderPdpte(mem, e, i4, i3) ==> c.i3 == i3 && c.i4 == i4 && 2 <= c.level <= 3
  {
    UnderPdpteShape(mem, e, i4, i3, c);
  }

  lemma UnderPml4eShape(mem: Tables, e: Entry, i4: nat, c: Victim)
    ensures (c in UnderPml4e(mem, e, i4)) == (!Skip(e) &&
      if c.level == 4 then c == Victim(4, i4, 0, 0) && !HoldsAny(TableAt(mem, e.addr), 512)
      else c.i3 < 512 && c in UnderPdpte(mem, TableAt(mem, e.addr)[c.i3], i4, c.i3))
    ensures c in UnderPml4e(mem, e, i4) ==> c.i4 == i4
  {
    PdptShape(mem, TableAt(mem, e.addr), i4, 512, c);
    if c.i3 < 512 { UnderPdpteShape(mem, TableAt(mem, e.addr)[c.i3], i4, c.i3, c); }
  }

  lemma UnderPml4eIndex(mem: Tables, e: Entry, i4: nat, c: Victim)
    ensures c in UnderPml4e(mem, e, i4) ==> c.i4 == i4
  {
    UnderPml4eShape(mem, e, i4, c);
  }

  ghost predicate InPml4(mem: Tables, t: Table, n: nat, c: Victim) {
    forall m {:trigger InPml4Scan(mem, t, m, c)} :: m == n ==> InPml4Scan(mem, t, m, c)
  }

  ghost predicate InPml4Scan(mem: Tables, t: Table, n: nat, c: Victim) { n <= |t| && c in Candidates(mem, t, n) }

  ghost predicate InPml4e(mem: Tables, e: Entry, i4: nat, c: Victim) {
    forall i {:trigger InPml4eScan(mem, e, i, c)} :: i == i4 ==> InPml4eScan(mem, e, i, c)
  }

  ghost predicate InPml4eScan(mem: Tables, e: Entry, i4: nat, c: Victim) { c in UnderPml4e(mem, e, i4) }

  lemma Pml4More(mem: Tables, t: Table, n: nat, c: Victim)
    requires n <= |t|
    ensures InPml4(mem, t, n, c) <==> n > 0 && (InPml4(mem, t, n - 1, c) || InPml4e(mem, t[n - 1], n - 1, c))
  {
    assert InPml4(mem, t, n, c) <==> InPml4Scan(mem, t, n, c);
    if n > 0 {
      InBoth(Candidates(mem, t, n - 1), UnderPml4e(mem, t[n - 1], n - 1), c);
      assert InPml4(mem, t, n - 1, c) <==> InPml4Scan(mem, t, n - 1, c);
      assert InPml4e(mem, t[n - 1], n - 1, c) <==> InPml4eScan(mem, t[n - 1], n - 1, c);
    }
  }

  lemma Pml4eIndex(mem: Tables, e: Entry, i4: nat, c: Victim)
    ensures InPml4e(mem, e, i4, c) ==> c.i4 == i4
  {
    if InPml4e(mem, e, i4, c) {
      assert InPml4eScan(mem, e, i4, c);
      UnderPml4eIndex(mem, e, i4, c);
    }
  }

  lemma {:induction false} InPml4Shape(mem: Tables, t: Table, n: nat, c: Victim)
    requires n <= |t|
    ensures InPml4(mem, t, n, c) <==> c.i4 < n && InPml4e(mem, t[c.i4], c.i4, c)
  {
    Pml4More(mem, t, n, c);
    if n > 0 {
      InPml4Shape(mem, t, n - 1, c);
      Pml4eIndex(mem, t[n - 1], n - 1, c);
    }
  }

  lemma CandidatesShape(mem: Tables, t: Table, n: nat, c: Victim)
    requires n <= |t|
    ensures c in Candidates(mem, t, n) <==> c.i4 < n && c in UnderPml4e(mem, t[c.i4], c.i4)
  {
    InPml4Shape(mem, t, n, c);
    assert InPml4(mem, t, n, c) <==> InPml4Scan(mem, t, n, c);
    if c.i4 < n { assert InPml4e(mem, t[c.i4], c.i4, c) <==> InPml4eScan(mem, t[c.i4], c.i4, c); }
  }

  lemma {:induction false} HoldsNone(t: Table, n: nat)
    requires n <= |t|
    ensures HoldsAny(t, n) <==> exists k :: 0 <= k < n && Holds(t[k])
  {
    if n > 0 { HoldsNone(t, n - 1); }
  }

  // ---------------------------------------------------------------- in what order they come

  /** Candidate c comes before candidate d: by the indices from the top, and what is in a table before the entry that
      leads to the table. */
  predicate Before(c: Victim, d: Victim) {
    || c.i4 < d.i4
    || (c.i4 == d.i4 && c.level < 4 && (
        || d.level == 4
        || c.i3 < d.i3
        || (c.i3 == d.i3 && c.level < 3 && (d.level == 3 || c.i2 < d.i2))))
  }

  /** The victims are sorted; the outer quantifier keeps the scan itself out of sight. */
  ghost predicate InOrder(cs: seq<Victim>) {
    forall s {:trigger Sorted(s)} :: s == cs ==> Sorted(s)
  }

  ghost predicate Sorted(cs: seq<Victim>) {
    forall i, j {:trigger Ordered(cs, i, j)} :: 0 <= i < j < |cs| ==> Ordered(cs, i, j)
  }

  ghost predicate Ordered(cs: seq<Victim>, i: nat, j: nat)
    requires i < |cs| && j < |cs|
  {
    Before(cs[i], cs[j])
  }

  ghost predicate AllBefore(a: seq<Victim>, b: seq<Victim>) {
    forall c, d {:trigger c in a, d in b} :: c in a && d in b ==> Before(c, d)
  }

  lemma OrderConcat(a: seq<Victim>, b: seq<Victim>)
    requires InOrder(a) && InOrder(b) && AllBefore(a, b)
    ensures InOrder(a + b)
  {
    var s := a + b;
    assert Sorted(a) && Sorted(b);
    forall i, j | 0 <= i < j < |s| ensures Ordered(s, i, j) {
      if i < |a| && |a| <= j {
        assert s[i] in a && s[j] in b;
      } else if i < |a| {
        assert Ordered(a, i, j);
      } else {
        assert Ordered(b, i - |a|, j - |a|);
      }
    }
  }

  lemma OrderMore(a: seq<Victim>, c: Victim)
    requires InOrder(a) && forall d :: d in a ==> Before(d, c)
    ensures InOrder(a + [c])
  {
    OrderConcat(a, [c]);
  }

  lemma {:induction false} PdtInOrder(t: Table, i4: nat, i3: nat, n: nat)
    requires n <= |t|
    ensures InOrder(PdtCandidates(t, i4, i3, n))
  {
    if n > 0 {
      PdtInOrder(t, i4, i3, n - 1);
      var last := Victim(2, i4, i3, n - 1);
      forall c | c in PdtCandidates(t, i4, i3, n - 1) ensures Before(c, last) {
        PdtShape(t, i4, i3, n - 1, c);
      }
      OrderMore(PdtCandidates(t, i4, i3, n - 1), last);
      assert PdtCandidates(t, i4, i3, n - 1) + [] == PdtCandidates(t, i4, i3, n - 1);
    }
  }

  lemma UnderPdpteInOrder(mem: Tables, e: Entry, i4: nat, i3: nat)
    ensures InOrder(UnderPdpte(mem, e, i4, i3))
  {
    PdtInOrder(TableAt(mem, e.addr), i4, i3, 512);
    var a := PdtCandidates(TableAt(mem, e.addr), i4, i3, 512);
    forall c | c in a ensures Before(c, Victim(3, i4, i3, 0)) {
      PdtShape(TableAt(mem, e.addr), i4, i3, 512, c);
    }
    OrderMore(a, Victim(3, i4, i3, 0));
    assert a + [] == a;
  }

  lemma {:induction false} PdptInOrder(mem: Tables, t: Table, i4: nat, n: nat)
    requires n <= |t|
    ensures InOrder(PdptCandidates(mem, t, i4, n))
  {
    if n > 0 {
      PdptInOrder(mem, t, i4, n - 1);
      UnderPdpteInOrder(mem, t[n - 1], i4, n - 1);
      EarlierPdpte(mem, t, i4, n);
      OrderConcat(PdptCandidates(mem, t, i4, n - 1), UnderPdpte(mem, t[n - 1], i4, n - 1));
    }
  }

  lemma EarlierPdpte(mem: Tables, t: Table, i4: nat, n: nat)
    requires 0 < n <= |t|
    ensures AllBefore(PdptCandidates(mem, t, i4, n - 1), UnderPdpte(mem, t[n - 1], i4, n - 1))
  {
    var a, b := PdptCandidates(mem, t, i4, n - 1), UnderPdpte(mem, t[n - 1], i4, n - 1);
    forall c, d | c in a && d in b ensures Before(c, d) {
      assert InPdptScan(mem, t, i4, n - 1, c) && InPdpteScan(mem, t[n - 1], i4, n - 1, d);
      PdpteBefore(mem, t, i4, n, c, d);
    }
  }

  lemma PdpteBefore(mem: Tables, t: Table, i4: nat, n: nat, c: Victim, d: Victim)
    requires 0 < n <= |t| && InPdpt(mem, t, i4, n - 1, c) && InPdpte(mem, t[n - 1], i4, n - 1, d)
    ensures Before(c, d)
  {
    InPdptShape(mem, t, i4, n - 1, c);
    PdpteIndex(mem, t[c.i3], i4, c.i3, c);
    PdpteIndex(mem, t[n - 1], i4, n - 1, d);
  }

  lemma UnderPml4eInOrder(mem: Tables, e: Entry, i4: nat)
    ensures InOrder(UnderPml4e(mem, e, i4))
  {
    PdptInOrder(mem, TableAt(mem, e.addr), i4, 512);
    var a := PdptCandidates(mem, TableAt(mem, e.addr), i4, 512);
    forall c | c in a ensures Before(c, Victim(4, i4, 0, 0)) {
      PdptShape(mem, TableAt(mem, e.addr), i4, 512, c);
      UnderPdpteShape(mem, TableAt(mem, e.addr)[c.i3], i4, c.i3, c);
    }
    OrderMore(a, Victim(4, i4, 0, 0));
    assert a + [] == a;
  }

  lemma {:induction false} CandidatesInOrder(mem: Tables, t: Table, n: nat)
    requires n <= |t|
    ensures InOrder(Candidates(mem, t, n))
  {
    if n > 0 {
      CandidatesInOrder(mem, t, n - 1);
      UnderPml4eInOrder(mem, t[n - 1], n - 1);
      EarlierPml4e(mem, t, n);
      OrderConcat(Candidates(mem, t, n - 1), UnderPml4e(mem, t[n - 1], n - 1));
    }
  }

  lemma EarlierPml4e(mem: Tables, t: Table, n: nat)
    requires 0 < n <= |t|
    ensures AllBefore(Candidates(mem, t, n - 1), UnderPml4e(mem, t[n - 1], n - 1))
  {
    var a, b := Candidates(mem, t, n - 1), UnderPml4e(mem, t[n - 1], n - 1);
    forall c, d | c in a && d in b ensures Before(c, d) {
      assert InPml4Scan(mem, t, n - 1, c) && InPml4eScan(mem, t[n - 1], n - 1, d);
      Pml4eBefore(mem, t, n, c, d);
    }
  }

  lemma Pml4eBefore(mem: Tables, t: Table, n: nat, c: Victim, d: Victim)
    requires 0 < n <= |t| && InPml4(mem, t, n - 1, c) && InPml4e(mem, t[n - 1], n - 1, d)
    ensures Before(c, d)
  {
    InPml4Shape(mem, t, n - 1, c);
    Pml4eIndex(mem, t[n - 1], n - 1, d);
  }

  // ---------------------------------------------------------------- candidates in a tree

  /** Where the entry chosen stands, as a number at its level. */
  ghost function Spot(c: Victim): nat {
    if c.level == 4 then c.i4 else if c.level == 3 then c.i4 * 512 + c.i3 else (c.i4 * 512 + c.i3) * 512 + c.i2
  }

  /** A victim's indices name an entry of the tree that leads on. */
  ghost predicate Names(mem: Tables, own: map<nat, Place>, root: nat, c: Victim) {
    var s := SlotOf(mem, root, c);
    && 2 <= c.level <= 4 && InTree(mem, own, s) && own[s.table].level == c.level
    && (c.level == 4 ==> s.table == root)
    && c.i4 < 512 && c.i3 < 512 && c.i2 < 512 && (c.level > 2 ==> c.i2 == 0) && (c.level > 3 ==> c.i3 == 0)
    && Position(own, s) == Spot(c) && PointsDown(Get(mem, s), c.level)
  }

  /** A candidate names an entry of the tree that leads to a table which leads nowhere. */
  ghost predicate Eligible(mem: Tables, own: map<nat, Place>, root: nat, low: nat, c: Victim) {
    Names(mem, own, root, c) && Twig(mem, own, low, Get(mem, SlotOf(mem, root, c)).addr)
  }

  /** All candidates of a well-formed tree, in the order of the scan. */
  function AllCandidates(mem: Tables, root: nat): seq<Victim> { Candidates(mem, TableAt(mem, root), 512) }

  lemma CandidateNames(mem: Tables, own: map<nat, Place>, root: nat, c: Victim)
    requires Linked(mem, own, root) && c in AllCandidates(mem, root)
    ensures Names(mem, own, root, c)
  {
    CandidatesShape(mem, TableAt(mem, root), 512, c);
    LinksOf(mem, own, root, root, 0);
    UnderPml4eShape(mem, mem[root][c.i4], c.i4, c);
    LinkBelow(mem, own, root, root, c.i4);
    var pdpt := mem[root][c.i4].addr;
    if c.level != 4 {
      assert TableAt(mem, pdpt) == mem[pdpt];
      NamesInPdpt(mem, own, root, pdpt, c);
    }
  }

  lemma NamesInPdpt(mem: Tables, own: map<nat, Place>, root: nat, pdpt: nat, c: Victim)
    requires Linked(mem, own, root) && pdpt in own && own[pdpt] == Place(3, c.i4, root) && pdpt in mem
      && |mem[pdpt]| == 512
    requires c.i4 < 512 && pdpt == Get(mem, Slot(root, c.i4)).addr
    requires c.i3 < 512 && c in UnderPdpte(mem, mem[pdpt][c.i3], c.i4, c.i3)
    ensures Names(mem, own, root, c)
  {
    var e3 := mem[pdpt][c.i3];
    UnderPdpteShape(mem, e3, c.i4, c.i3, c);
    LinkBelow(mem, own, root, pdpt, c.i3);
    if c.level != 3 {
      assert TableAt(mem, e3.addr) == mem[e3.addr];
      LinkBelow(mem, own, root, e3.addr, c.i2);
      NamesAt2(mem, own, root, pdpt, e3.addr, c);
    }
  }

  lemma NamesAt2(mem: Tables, own: map<nat, Place>, root: nat, pdpt: nat, pdt: nat, c: Victim)
    requires c == Victim(2, c.i4, c.i3, c.i2) && c.i4 < 512 && c.i3 < 512 && c.i2 < 512
      && pdpt == Get(mem, Slot(root, c.i4)).addr
    requires pdt == Get(mem, Slot(pdpt, c.i3)).addr
    requires pdt in mem && pdt in own && own[pdt] == Place(2, c.i4 * 512 + c.i3, pdpt) && |mem[pdt]| == 512
    requires PointsDown(mem[pdt][c.i2], 2)
    ensures Names(mem, own, root, c)
  {
  }

  /** An entry the scan goes through leads to a table one level down, and to no other table's. */
  lemma LinkBelow(mem: Tables, own: map<nat, Place>, root: nat, t: nat, k: nat)
    requires Linked(mem, own, root) && t in own && t in mem && k < 512 && own[t].level >= 2
    requires |mem[t]| == 512 && !Skip(mem[t][k]) && (own[t].level == 4 || !mem[t][k].ps)
    ensures PointsDown(mem[t][k], own[t].level)
    ensures var b := mem[t][k].addr;
      b in mem && b in own && own[b] == Place(own[t].level - 1, own[t].prefix * 512 + k, t) && |mem[b]| == 512
  {
    LinksOf(mem, own, root, t, k);
  }

  lemma CandidateIsEligible(mem: Tables, own: map<nat, Place>, root: nat, low: nat, bias: map<Slot, int>, c: Victim)
    requires Tree(mem, own, root, low, bias) && c in AllCandidates(mem, root)
    ensures Eligible(mem, own, root, low, c)
  {
    TreeIsLinked(mem, own, root, low, bias);
    CandidateNames(mem, own, root, c);
    CandidateIsTwig(mem, own, root, low, bias, c);
  }

  lemma CandidateIsTwig(mem: Tables, own: map<nat, Place>, root: nat, low: nat, bias: map<Slot, int>, c: Victim)
    requires Tree(mem, own, root, low, bias) && Names(mem, own, root, c) && c in AllCandidates(mem, root)
    ensures Twig(mem, own, low, Get(mem, SlotOf(mem, root, c)).addr)
  {
    var s := SlotOf(mem, root, c);
    var child := Get(mem, s).addr;
    FactsOf(mem, own, root, low, bias, s.table, s.index);
    FactsOf(mem, own, root, low, bias, child, 0);
    FactsOf(mem, own, root, low, bias, root, 0);
    CandidatesShape(mem, TableAt(mem, root), 512, c);
    UnderPml4eShape(mem, mem[root][c.i4], c.i4, c);
    if c.level == 4 {
      LowHolds(mem, own, root, low, bias);
      NoHoldsIsTwig(mem, own, low, child);
    } else if c.level == 3 {
      UnderPdpteShape(mem, TableAt(mem, mem[root][c.i4].addr)[c.i3], c.i4, c.i3, c);
      NoHoldsIsTwig(mem, own, low, child);
    }
  }

  /** The candidates, entry by entry: an entry of a page directory that is present, not masked and leads to a page
      table, and an entry above whose table holds nothing masked and nothing present that leads further down.  On the
      way there all entries are present, not masked and lead on. */
  lemma CandidateIff(mem: Tables, own: map<nat, Place>, root: nat, c: Victim)
    requires Linked(mem, own, root) && c.i4 < 512 && c.i3 < 512 && c.i2 < 512
    ensures c in AllCandidates(mem, root) <==> (
      var e4 := Get(mem, Slot(root, c.i4));
      var e3 := Get(mem, Slot(e4.addr, c.i3));
      var e2 := Get(mem, Slot(e3.addr, c.i2));
      && e4.p && !e4.pmnt
      && (c.level == 4 ==> c.i3 == c.i2 == 0 && LeadsNowhere(mem, e4.addr))
      && (c.level != 4 ==> e3.p && !e3.pmnt && !e3.ps)
      && (c.level == 3 ==> c.i2 == 0 && LeadsNowhere(mem, e3.addr))
      && (c.level < 3 ==> c.level == 2 && e2.p && !e2.pmnt && !e2.ps)
      && c.level <= 4)
  {
    LinksOf(mem, own, root, root, c.i4);
    CandidatesShape(mem, TableAt(mem, root), 512, c);
    var e4 := mem[root][c.i4];
    UnderPml4eShape(mem, e4, c.i4, c);
    if !Skip(e4) {
      LinkBelow(mem, own, root, root, c.i4);
      LeadsNowhereIs(mem, e4.addr);
      var e3 := mem[e4.addr][c.i3];
      UnderPdpteShape(mem, e3, c.i4, c.i3, c);
      if !Skip(e3) && !e3.ps {
        LinkBelow(mem, own, root, e4.addr, c.i3);
        LeadsNowhereIs(mem, e3.addr);
      }
    }
  }

  /** Table t has no masked entry and no present one that leads to a further table. */
  ghost predicate LeadsNowhere(mem: Tables, t: nat) {
    forall k {:trigger Get(mem, Slot(t, k))} :: 0 <= k < 512 ==>
      var e := Get(mem, Slot(t, k)); !e.pmnt && (e.p ==> e.ps)
  }

  lemma LeadsNowhereIs(mem: Tables, t: nat)
    requires t in mem && |mem[t]| == 512
    ensures LeadsNowhere(mem, t) <==> !HoldsAny(mem[t], 512)
  {
    HoldsNone(mem[t], 512);
    if LeadsNowhere(mem, t) {
      forall k | 0 <= k < 512 ensures !Holds(mem[t][k]) { assert Get(mem, Slot(t, k)) == mem[t][k]; }
    }
  }

  lemma NoHoldsIsTwig(mem: Tables, own: map<nat, Place>, low: nat, t: nat)
    requires t in mem && t in own && |mem[t]| == 512 && own[t].level <= 3 && t != low && !HoldsAny(mem[t], 512)
    ensures Twig(mem, own, low, t)
  {
    HoldsNone(mem[t], 512);
  }

  lemma LowHolds(mem: Tables, own: map<nat, Place>, root: nat, low: nat, bias: map<Slot, int>)
    requires Tree(mem, own, root, low, bias)
    ensures |mem[low]| == 512 && HoldsAny(mem[low], 512)
  {
    FactsOf(mem, own, root, low, bias, low, 0);
    HoldsNone(mem[low], 512);
  }

  lemma NamesApart(mem: Tables, own: map<nat, Place>, root: nat, c: Victim, d: Victim)
    requires Names(mem, own, root, c) && Names(mem, own, root, d) && c != d
    ensures SlotOf(mem, root, c) != SlotOf(mem, root, d)
  {
  }

  lemma CandidatesApart(mem: Tables, own: map<nat, Place>, root: nat)
    requires Linked(mem, own, root)
    ensures Apart2(mem, root, AllCandidates(mem, root))
  {
    var cs := AllCandidates(mem, root);
    CandidatesInOrder(mem, TableAt(mem, root), 512);
    assert Sorted(cs);
    forall i, j | 0 <= i < j < |cs| ensures SlotOf(mem, root, cs[i]) != SlotOf(mem, root, cs[j]) {
      CandidateNames(mem, own, root, cs[i]);
      CandidateNames(mem, own, root, cs[j]);
      assert Ordered(cs, i, j);
      NamesApart(mem, own, root, cs[i], cs[j]);
    }
  }

  /** With a table other than the root and the masked one in the tree, there is something to reclaim. */
  lemma {:induction false} SomeCandidate(mem: Tables, own: map<nat, Place>, root: nat, low: nat, bias: map<Slot, int>,
          t: nat)
    requires Tree(mem, own, root, low, bias) && t in mem && t != root && t != low
    ensures |AllCandidates(mem, root)| > 0
    decreases if own[t].level == 1 then 4 else own[t].level
  {
    FactsOf(mem, own, root, low, bias, t, 0);
    TreeIsLinked(mem, own, root, low, bias);
    if own[t].level == 4 {
      TopIsRoot(mem, own, root, t);
    } else if own[t].level == 1 {
      FactsOf(mem, own, root, low, bias, own[t].parent, 0);
      CandidateInPd(mem, own, root, low, bias, own[t].parent);
    } else if own[t].level == 2 {
      CandidateInPd(mem, own, root, low, bias, t);
    } else if HoldsAny(mem[t], 512) {
      HoldsNone(mem[t], 512);
      var k :| 0 <= k < 512 && Holds(mem[t][k]);
      FactsOf(mem, own, root, low, bias, t, k);
      LinkBelow(mem, own, root, t, k);
      CandidateInPd(mem, own, root, low, bias, mem[t][k].addr);
    } else {
      RootEntry(mem, own, root, low, bias, t);
      CandidatesShape(mem, TableAt(mem, root), 512, Victim(4, own[t].prefix, 0, 0));
      UnderPml4eShape(mem, mem[root][own[t].prefix], own[t].prefix, Victim(4, own[t].prefix, 0, 0));
    }
  }

  lemma RootEntry(mem: Tables, own: map<nat, Place>, root: nat, low: nat, bias: map<Slot, int>, t: nat)
    requires Tree(mem, own, root, low, bias) && t in mem && own[t].level == 3
    ensures own[t].prefix < 512 && |mem[root]| == 512 && !Skip(mem[root][own[t].prefix])
      && mem[root][own[t].prefix].addr == t && |mem[t]| == 512
  {
    FactsOf(mem, own, root, low, bias, t, 0);
    FactsOf(mem, own, root, low, bias, own[t].parent, own[t].prefix % 512);
    TreeIsLinked(mem, own, root, low, bias);
    TopIsRoot(mem, own, root, own[t].parent);
    RootIsTop(own, root, t);
  }

  lemma RootIsTop(own: map<nat, Place>, root: nat, t: nat)
    requires t in own && own[t].parent in own && own[own[t].parent].prefix == own[t].prefix / 512
      && own[own[t].parent].prefix == 0
    ensures own[t].prefix < 512
  {
  }

  lemma CandidateInPd(mem: Tables, own: map<nat, Place>, root: nat, low: nat, bias: map<Slot, int>, t: nat)
    requires Tree(mem, own, root, low, bias) && t in mem && own[t].level == 2
    ensures |AllCandidates(mem, root)| > 0
  {
    FactsOf(mem, own, root, low, bias, t, 0);
    var pdpt, i3 := own[t].parent, own[t].prefix % 512;
    RootEntry(mem, own, root, low, bias, pdpt);
    var i4 := own[pdpt].prefix;
    var c := Victim(3, i4, i3, 0);
    if HoldsAny(mem[t], 512) {
      HoldsNone(mem[t], 512);
      var k :| 0 <= k < 512 && Holds(mem[t][k]);
      FactsOf(mem, own, root, low, bias, t, k);
      c := Victim(2, i4, i3, k);
    }
    UnderPdpteShape(mem, mem[pdpt][i3], i4, i3, c);
    UnderPml4eShape(mem, mem[root][i4], i4, c);
    CandidatesShape(mem, TableAt(mem, root), 512, c);
  }

  // ---------------------------------------------------------------- the release

  /** The table that slot s leads to goes to the pool and its entry is cleared. */
  function Free(m: Memory, s: Slot): Memory {
    if s.table in m.mem && s.index < |m.mem[s.table]| then Memory(Drop(m.mem, s), m.pool + [Get(m.mem, s).addr]) else m
  }

  /** The way up from a released entry: tables left empty are released too, the first other one loses a sub-entry. */
  function Climb(m: Memory, root: nat, c: Victim): Memory
    decreases 4 - c.level
  {
    if c.level >= 4 then m
    else
      var up := c.(level := c.level + 1);
      var u := SlotOf(m.mem, root, up);
      if Get(m.mem, u).sub == 0 then Climb(Free(m, u), root, up)
      else if u.table in m.mem && u.index < |m.mem[u.table]| then m.(mem := SetSub(m.mem, u, Get(m.mem, u).sub - 1))
      else m
  }

  /** ReclaimPages. */
  function Reclaim(m: Memory, root: nat): Memory {
    var cs := AllCandidates(m.mem, root);
    var aged := AgeAll(m.mem, root, cs);
    var best := Pick(m.mem, root, cs);
    if best.None? then m.(mem := aged)
    else
      var c := best.value.victim;
      Climb(Free(m.(mem := aged), SlotOf(aged, root, c)), root, c)
  }

  // ---------------------------------------------------------------- the release keeps the tree

  /** Masked entries stay as they are. */
  ghost predicate MaskedSame(mem: Tables, mem': Tables) {
    forall t, k {:trigger mem[t][k]} :: t in mem && 0 <= k < |mem[t]| && mem[t][k].pmnt
      ==> t in mem' && |mem'[t]| == |mem[t]| && mem'[t][k] == mem[t][k]
  }

  lemma FreeTree(m: Memory, own: map<nat, Place>, root: nat, low: nat, bias: map<Slot, int>, s: Slot)
    requires Tree(m.mem, own, root, low, bias) && Apart(m.mem, m.pool) && InTree(m.mem, own, s)
    requires PointsDown(Get(m.mem, s), own[s.table].level) && Twig(m.mem, own, low, Get(m.mem, s).addr)
    ensures var m', c := Free(m, s), Get(m.mem, s).addr;
      && c in m.mem && c != s.table && s.table in own - {c}
      && Tree(m'.mem, own - {c}, root, low, Shift(bias - {s}, own, root, s.table, 1))
      && Apart(m'.mem, m'.pool) && Pages(m'.mem, m'.pool) == Pages(m.mem, m.pool) && |m'.pool| == |m.pool| + 1
      && MaskedSame(m.mem, m'.mem)
  {
    DropTree(m.mem, own, root, low, bias, s);
    FactsOf(m.mem, own, root, low, bias, s.table, s.index);
    FreePages(m, s);
    FreeMasked(m.mem, own, root, low, bias, s);
  }

  lemma FreePages(m: Memory, s: Slot)
    requires Apart(m.mem, m.pool) && s.table in m.mem && s.index < |m.mem[s.table]| && Get(m.mem, s).addr in m.mem
    ensures var m' := Free(m, s); Apart(m'.mem, m'.pool) && Pages(m'.mem, m'.pool) == Pages(m.mem, m.pool)
  {
    var c := Get(m.mem, s).addr;
    assert (m.pool + [c])[|m.pool|] == c;
    forall p ensures p in m.pool + [c] <==> p in m.pool || p == c { }
  }

  lemma FreeMasked(mem: Tables, own: map<nat, Place>, root: nat, low: nat, bias: map<Slot, int>, s: Slot)
    requires Tree(mem, own, root, low, bias) && InTree(mem, own, s)
    requires PointsDown(Get(mem, s), own[s.table].level) && Twig(mem, own, low, Get(mem, s).addr)
    ensures MaskedSame(mem, Drop(mem, s))
  {
    forall t, k | t in mem && 0 <= k < |mem[t]| && mem[t][k].pmnt
      ensures t in Drop(mem, s) && |Drop(mem, s)[t]| == |mem[t]| && Drop(mem, s)[t][k] == mem[t][k]
    {
      FactsOf(mem, own, root, low, bias, t, 0);
      FactsOf(mem, own, root, low, bias, t, k);
    }
  }

  /** The entries whose counts are ahead or behind lead to tables in `keep`. */
  ghost predicate Held(mem: Tables, own: map<nat, Place>, bias: map<Slot, int>, keep: set<nat>) {
    forall s {:trigger Bias(bias, s)} :: Bias(bias, s) != 0 ==>
      && s.table in mem && s.table in own && s.index < |mem[s.table]|
      && PointsDown(Get(mem, s), own[s.table].level) && Get(mem, s).addr in keep
  }

  /** None of the pages is one to keep. */
  ghost predicate Spares(pages: seq<nat>, keep: set<nat>) {
    forall p {:trigger p in pages} :: p in pages ==> p !in keep
  }

  /** The places of the tables that have not become free pages. */
  ghost predicate Kept(own: map<nat, Place>, own': map<nat, Place>, pages: seq<nat>) {
    && own'.Keys <= own.Keys && (forall t {:trigger own'[t]} :: t in own' ==> own'[t] == own[t])
    && forall t {:trigger own[t]} :: t in own && t !in pages ==> t in own'
  }

  /** An entry at the victim's level has just been cleared: its table t is one entry short of its count. */
  ghost predicate Loose(m: Memory, own: map<nat, Place>, root: nat, low: nat, bias: map<Slot, int>, c: Victim, t: nat) {
    && 2 <= c.level <= 4 && OnPath(m.mem, own, root, c, t)
    && Tree(m.mem, own, root, low, Shift(bias, own, root, t, 1)) && Apart(m.mem, m.pool)
  }

  /** Table t is the one at the victim's level on the path that the victim's indices describe. */
  ghost predicate OnPath(mem: Tables, own: map<nat, Place>, root: nat, c: Victim, t: nat) {
    && t in own && own[t].level == c.level && t == SlotOf(mem, root, c).table
    && (c.level == 4 ==> t == root)
    && (c.level == 3 ==> Above(own, t) == Slot(root, c.i4))
    && (c.level == 2 ==> Above(own, t) == SlotOf(mem, root, c.(level := 3))
                         && own[t].parent in own && own[own[t].parent].level == 3
                         && Above(own, own[t].parent) == Slot(root, c.i4))
  }

  /** The entry above the loosened table counts that table's present entries, but for the bias. */
  lemma LooseCount(m: Memory, own: map<nat, Place>, root: nat, low: nat, bias: map<Slot, int>, c: Victim, t: nat)
    requires Loose(m, own, root, low, bias, c, t) && c.level < 4
    ensures var u := SlotOf(m.mem, root, c.(level := c.level + 1));
      && u == Above(own, t) && InTree(m.mem, own, u) && own[u.table].level == c.level + 1
      && PointsDown(Get(m.mem, u), c.level + 1) && Get(m.mem, u).addr == t && t in m.mem && u.table != t && t != root
      && Get(m.mem, u).sub == Count(m.mem[t]) + Bias(bias, u)
  {
    var now := Shift(bias, own, root, t, 1);
    FactsOf(m.mem, own, root, low, now, root, 0);
    FactsOf(m.mem, own, root, low, now, t, 0);
    FactsOf(m.mem, own, root, low, now, own[t].parent, own[t].prefix % 512);
  }

  lemma EmptyIsTwig(mem: Tables, own: map<nat, Place>, root: nat, low: nat, bias: map<Slot, int>, t: nat)
    requires Tree(mem, own, root, low, bias) && t in mem && Count(mem[t]) == 0
    ensures Twig(mem, own, low, t) && forall k {:trigger mem[t][k]} :: 0 <= k < |mem[t]| ==> !mem[t][k].p
  {
    CountNone(mem[t]);
    FactsOf(mem, own, root, low, bias, t, 0);
    FactsOf(mem, own, root, low, bias, low, 0);
  }

  /** An empty table is released, and loosens the table above. */
  lemma ClimbFree(m: Memory, own: map<nat, Place>, root: nat, low: nat, bias: map<Slot, int>, keep: set<nat>, c: Victim,
                  t: nat)
    requires Loose(m, own, root, low, bias, c, t) && c.level < 4 && Held(m.mem, own, bias, keep) && t !in keep
    requires Get(m.mem, SlotOf(m.mem, root, c.(level := c.level + 1))).sub == 0
    ensures var up := c.(level := c.level + 1);
      var m' := Free(m, SlotOf(m.mem, root, up));
      && Loose(m', own - {t}, root, low, bias, up, SlotOf(m.mem, root, up).table)
      && Held(m'.mem, own - {t}, bias, keep) && m'.pool == m.pool + [t]
      && Pages(m'.mem, m'.pool) == Pages(m.mem, m.pool)
      && MaskedSame(m.mem, m'.mem) && SameView(m.mem, m'.mem, root)
  {
    var now := Shift(bias, own, root, t, 1);
    var up := c.(level := c.level + 1);
    var u := SlotOf(m.mem, root, up);
    LooseCount(m, own, root, low, bias, c, t);
    assert Bias(bias, u) == 0;
    EmptyIsTwig(m.mem, own, root, low, now, t);
    FreeTree(m, own, root, low, now, u);
    FreeBias(own, root, bias, t, u);
    TreeBias(Free(m, u).mem, own - {t}, root, low, Shift(now - {u}, own, root, u.table, 1),
             Shift(bias, own - {t}, root, u.table, 1));
    FreePath(m, own, root, low, now, c, t);
    FreeHeld(m, own, bias, keep, u);
    forall w: nat | w < Span(5) ensures View(Free(m, u).mem, 4, root, w) == View(m.mem, 4, root, w) {
      EmptyView(m, own, root, low, now, u, t, w);
    }
  }

  lemma FreeBias(own: map<nat, Place>, root: nat, bias: map<Slot, int>, t: nat, u: Slot)
    requires t in own && u.table in own && u.table != t && t != root && u == Above(own, t) && Bias(bias, u) == 0
    requires u.table != root ==> own[u.table].parent != u.table
    ensures SameBias(Shift(Shift(bias, own, root, t, 1) - {u}, own, root, u.table, 1),
                     Shift(bias, own - {t}, root, u.table, 1))
  {
  }

  /** A release leaves the entries to the tables kept. */
  lemma FreeHeld(m: Memory, own: map<nat, Place>, bias: map<Slot, int>, keep: set<nat>, s: Slot)
    requires Held(m.mem, own, bias, keep) && s.table in m.mem && s.index < |m.mem[s.table]|
    requires var c := Get(m.mem, s).addr;
      && c !in keep && c in m.mem && c in own && c != s.table
      && forall k {:trigger m.mem[c][k]} :: 0 <= k < |m.mem[c]| ==> !PointsDown(m.mem[c][k], own[c].level)
    ensures Held(Free(m, s).mem, own - {Get(m.mem, s).addr}, bias, keep)
  {
  }

  lemma FreePath(m: Memory, own: map<nat, Place>, root: nat, low: nat, bias: map<Slot, int>, c: Victim, t: nat)
    requires Tree(m.mem, own, root, low, bias) && OnPath(m.mem, own, root, c, t) && 2 <= c.level < 4
    requires var u := SlotOf(m.mem, root, c.(level := c.level + 1));
      && u == Above(own, t) && InTree(m.mem, own, u) && own[u.table].level == c.level + 1
      && Get(m.mem, u).addr == t && u.table != t && t != root
    ensures var up := c.(level := c.level + 1);
      var u := SlotOf(m.mem, root, up);
      OnPath(Free(m, u).mem, own - {t}, root, up, u.table)
  {
    FactsOf(m.mem, own, root, low, bias, SlotOf(m.mem, root, c.(level := c.level + 1)).table, 0);
  }

  lemma EmptyView(m: Memory, own: map<nat, Place>, root: nat, low: nat, bias: map<Slot, int>, u: Slot, t: nat, w: nat)
    requires Tree(m.mem, own, root, low, bias) && InTree(m.mem, own, u) && PointsDown(Get(m.mem, u), own[u.table].level)
    requires Get(m.mem, u).addr == t && Twig(m.mem, own, low, t) && w < Span(5)
    requires forall k {:trigger m.mem[t][k]} :: 0 <= k < |m.mem[t]| ==> !m.mem[t][k].p
    ensures View(Free(m, u).mem, 4, root, w) == View(m.mem, 4, root, w)
  {
    DropView(m.mem, own, root, low, bias, u, w);
    if Under(own, u, w) {
      ViewUnder(m.mem, own, root, low, bias, u, w);
    }
  }

  /** A table that keeps entries loses one from its count. */
  lemma ClimbStop(m: Memory, own: map<nat, Place>, root: nat, low: nat, bias: map<Slot, int>, c: Victim, t: nat)
    requires Loose(m, own, root, low, bias, c, t) && c.level < 4
    requires Get(m.mem, SlotOf(m.mem, root, c.(level := c.level + 1))).sub != 0
    ensures var u := SlotOf(m.mem, root, c.(level := c.level + 1));
      && u.table in m.mem && u.index < |m.mem[u.table]|
      && var mem' := SetSub(m.mem, u, Get(m.mem, u).sub - 1);
        && Tree(mem', own, root, low, bias) && mem'.Keys == m.mem.Keys
        && MaskedSame(m.mem, mem') && SameView(m.mem, mem', root)
  {
    var now := Shift(bias, own, root, t, 1);
    var u := SlotOf(m.mem, root, c.(level := c.level + 1));
    var n := Get(m.mem, u).sub - 1;
    LooseCount(m, own, root, low, bias, c, t);
    SubTree(m.mem, own, root, low, now, u, n);
    StopBias(own, root, bias, t, u, n - Get(m.mem, u).sub);
    TreeBias(SetSub(m.mem, u, n), own, root, low, Ahead(now, u, n - Get(m.mem, u).sub), bias);
    forall w: nat | w < Span(5) ensures View(SetSub(m.mem, u, n), 4, root, w) == View(m.mem, 4, root, w) {
      SubView(m.mem, u, n, 4, root, w);
    }
  }

  lemma StopBias(own: map<nat, Place>, root: nat, bias: map<Slot, int>, t: nat, u: Slot, d: int)
    requires t in own && t != root && u == Above(own, t) && d == -1
    ensures SameBias(Ahead(Shift(bias, own, root, t, 1), u, d), bias)
  {
  }

  /** The way up only adds to the pool. */
  lemma {:induction false} ClimbPool(m: Memory, root: nat, c: Victim)
    ensures m.pool <= Climb(m, root, c).pool
    decreases 4 - c.level
  {
    if c.level < 4 {
      var up := c.(level := c.level + 1);
      var u := SlotOf(m.mem, root, up);
      if Get(m.mem, u).sub == 0 {
        ClimbPool(Free(m, u), root, up);
      }
    }
  }

  lemma {:induction false} ClimbKeeps(m: Memory, own: map<nat, Place>, root: nat, low: nat, bias: map<Slot, int>,
                                      keep: set<nat>, c: Victim, t: nat)
    returns (own': map<nat, Place>)
    requires Loose(m, own, root, low, bias, c, t) && Held(m.mem, own, bias, keep)
    requires Spares(Climb(m, root, c).pool, keep)
    ensures var m' := Climb(m, root, c);
      && Tree(m'.mem, own', root, low, bias) && Apart(m'.mem, m'.pool)
      && Pages(m'.mem, m'.pool) == Pages(m.mem, m.pool)
      && |m.pool| <= |m'.pool| <= |m.pool| + 4 - c.level && Kept(own, own', m'.pool)
      && MaskedSame(m.mem, m'.mem) && SameView(m.mem, m'.mem, root)
    decreases 4 - c.level
  {
    own' := own;
    if c.level == 4 {
      assert Shift(bias, own, root, t, 1) == bias;
    } else {
      var up := c.(level := c.level + 1);
      var u := SlotOf(m.mem, root, up);
      LooseCount(m, own, root, low, bias, c, t);
      if Get(m.mem, u).sub == 0 {
        FreedInPool(m, root, c, u);
        ClimbFree(m, own, root, low, bias, keep, c, t);
        own' := ClimbKeeps(Free(m, u), own - {t}, root, low, bias, keep, up, u.table);
        MaskedOn(m.mem, Free(m, u).mem, Climb(m, root, c).mem);
        SameViewOn(m.mem, Free(m, u).mem, Climb(m, root, c).mem, root);
      } else {
        ClimbStop(m, own, root, low, bias, c, t);
      }
    }
  }

  lemma FreedInPool(m: Memory, root: nat, c: Victim, u: Slot)
    requires c.level < 4 && u == SlotOf(m.mem, root, c.(level := c.level + 1)) && Get(m.mem, u).sub == 0
    requires u.table in m.mem && u.index < |m.mem[u.table]|
    ensures Get(m.mem, u).addr in Climb(m, root, c).pool
  {
    ClimbPool(Free(m, u), root, c.(level := c.level + 1));
    assert Free(m, u).pool[|m.pool|] == Get(m.mem, u).addr;
  }

  lemma MaskedOn(a: Tables, b: Tables, c: Tables)
    requires MaskedSame(a, b) && MaskedSame(b, c)
    ensures MaskedSame(a, c)
  {
    forall t, k | t in a && 0 <= k < |a[t]| && a[t][k].pmnt ensures t in c && |c[t]| == |a[t]| && c[t][k] == a[t][k] {
      assert b[t][k].pmnt;
    }
  }

  // ---------------------------------------------------------------- ReclaimPages as a whole

  lemma AgedSlot(mem: Tables, aged: Tables, own: map<nat, Place>, root: nat, low: nat, c: Victim)
    requires SameShape(mem, aged) && Eligible(mem, own, root, low, c)
    ensures SlotOf(aged, root, c) == SlotOf(mem, root, c) && Eligible(aged, own, root, low, c)
  {
    SameSlot(mem, aged, root, c);
    SameGet(mem, aged, SlotOf(mem, root, c));
    AgedTwig(mem, aged, own, low, Get(mem, SlotOf(mem, root, c)).addr);
  }

  lemma SameSlot(mem: Tables, aged: Tables, root: nat, c: Victim)
    requires SameShape(mem, aged)
    ensures SlotOf(aged, root, c) == SlotOf(mem, root, c)
  {
    SameGet(mem, aged, Slot(root, c.i4));
    SameGet(mem, aged, Slot(Get(mem, Slot(root, c.i4)).addr, c.i3));
  }

  lemma AgedTwig(mem: Tables, aged: Tables, own: map<nat, Place>, low: nat, t: nat)
    requires SameShape(mem, aged) && Twig(mem, own, low, t)
    ensures Twig(aged, own, low, t)
  {
    forall k | 0 <= k < 512 ensures !PointsDown(aged[t][k], own[t].level) {
      SameGet(mem, aged, Slot(t, k));
      assert !PointsDown(mem[t][k], own[t].level);
    }
  }

  lemma SameGet(mem: Tables, mem': Tables, s: Slot)
    requires SameShape(mem, mem')
    ensures Get(mem', s) == Get(mem, s).(a := Get(mem', s).a, acc := Get(mem', s).acc)
  {
  }

  lemma AgedMasked(mem: Tables, own: map<nat, Place>, root: nat)
    requires Linked(mem, own, root)
    ensures MaskedSame(mem, AgeAll(mem, root, AllCandidates(mem, root)))
  {
    var cs := AllCandidates(mem, root);
    AgeAllShape(mem, root, cs);
    forall t, k | t in mem && 0 <= k < |mem[t]| && mem[t][k].pmnt ensures AgeAll(mem, root, cs)[t][k] == mem[t][k] {
      forall i | 0 <= i < |cs| ensures SlotOf(mem, root, cs[i]) != Slot(t, k) {
        CandidateNames(mem, own, root, cs[i]);
      }
      AgeAllElsewhere(mem, root, cs, Slot(t, k));
      assert AgeAll(mem, root, cs)[t][k] == Get(AgeAll(mem, root, cs), Slot(t, k));
    }
  }

  lemma AgedHeld(mem: Tables, aged: Tables, own: map<nat, Place>, bias: map<Slot, int>, keep: set<nat>)
    requires SameShape(mem, aged) && Held(mem, own, bias, keep)
    ensures Held(aged, own, bias, keep)
  {
    forall s | Bias(bias, s) != 0
      ensures s.table in aged && s.index < |aged[s.table]|
      ensures PointsDown(Get(aged, s), own[s.table].level) && Get(aged, s).addr in keep
    {
      SameGet(mem, aged, s);
    }
  }

  /** The path to an entry named. */
  lemma NamedPath(mem: Tables, own: map<nat, Place>, root: nat, c: Victim)
    requires Linked(mem, own, root) && Names(mem, own, root, c)
    ensures OnPath(mem, own, root, c, SlotOf(mem, root, c).table)
  {
    var s := SlotOf(mem, root, c);
    var t := s.table;
    LinksOf(mem, own, root, root, 0);
    LinksOf(mem, own, root, t, s.index);
    if c.level < 4 {
      LinksOf(mem, own, root, own[t].parent, own[t].prefix % 512);
      if c.level == 3 {
        TopIsRoot(mem, own, root, own[t].parent);
        PathAt3(mem, own, root, c, t);
      } else {
        LinksOf(mem, own, root, own[own[t].parent].parent, own[own[t].parent].prefix % 512);
        TopIsRoot(mem, own, root, own[own[t].parent].parent);
        PathAt2(mem, own, root, c, t);
      }
    }
  }

  lemma TopIsRoot(mem: Tables, own: map<nat, Place>, root: nat, t: nat)
    requires Linked(mem, own, root) && t in own && own[t].level == 4
    ensures t == root
  {
    LinksOf(mem, own, root, t, 0);
    if t != root {
      LinksOf(mem, own, root, own[t].parent, 0);
    }
  }

  lemma PathAt3(mem: Tables, own: map<nat, Place>, root: nat, c: Victim, t: nat)
    requires c.level == 3 && t == SlotOf(mem, root, c).table && t in own && own[t].level == 3 && c.i4 < 512
      && c.i3 < 512
    requires Position(own, SlotOf(mem, root, c)) == c.i4 * 512 + c.i3 && t != root && own[t].parent == root
    requires Hangs(mem, own, t) && own[root].prefix == 0
    ensures OnPath(mem, own, root, c, t)
  {
  }

  lemma PathAt2(mem: Tables, own: map<nat, Place>, root: nat, c: Victim, t: nat)
    requires c.level == 2 && t == SlotOf(mem, root, c).table && t in own && own[t].level == 2
    requires c.i4 < 512 && c.i3 < 512 && c.i2 < 512
    requires Position(own, SlotOf(mem, root, c)) == (c.i4 * 512 + c.i3) * 512 + c.i2 && t != root && Hangs(mem, own, t)
    requires own[t].parent != root && Hangs(mem, own, own[t].parent)
    requires own[own[t].parent].parent == root && own[root].prefix == 0
    ensures OnPath(mem, own, root, c, t)
  {
  }

  /** Page w is under the entry that the victim's indices name. */
  ghost predicate Covers(c: Victim, w: nat) { At(w, c.level) == Spot(c) }

  /** The pages under the victim's entry are no longer translated; the others are as before. */
  ghost predicate Lost(mem: Tables, mem': Tables, root: nat, c: Victim) {
    forall w: nat {:trigger View(mem', 4, root, w)} :: w < Span(5) ==>
      View(mem', 4, root, w) == if Covers(c, w) then None else View(mem, 4, root, w)
  }

  /** Releasing a candidate loosens its table, and takes away the translations under its entry only. */
  lemma ReleaseVictim(m: Memory, own: map<nat, Place>, root: nat, low: nat, bias: map<Slot, int>, keep: set<nat>,
                      c: Victim)
    requires Tree(m.mem, own, root, low, bias) && Apart(m.mem, m.pool) && Eligible(m.mem, own, root, low, c)
    requires Held(m.mem, own, bias, keep) && Get(m.mem, SlotOf(m.mem, root, c)).addr !in keep
    ensures var s := SlotOf(m.mem, root, c);
      var m' := Free(m, s);
      && Loose(m', own - {Get(m.mem, s).addr}, root, low, bias, c, s.table) && m'.pool == m.pool + [Get(m.mem, s).addr]
      && Held(m'.mem, own - {Get(m.mem, s).addr}, bias, keep)
      && Pages(m'.mem, m'.pool) == Pages(m.mem, m.pool) && MaskedSame(m.mem, m'.mem) && Lost(m.mem, m'.mem, root, c)
  {
    var s := SlotOf(m.mem, root, c);
    var child := Get(m.mem, s).addr;
    assert Bias(bias, s) == 0;
    FreeTree(m, own, root, low, bias, s);
    TreeIsLinked(m.mem, own, root, low, bias);
    NamedPath(m.mem, own, root, c);
    VictimPath(m, own, root, c);
    VictimBias(own, root, bias, s, child);
    TreeBias(Free(m, s).mem, own - {child}, root, low, Shift(bias - {s}, own, root, s.table, 1),
             Shift(bias, own - {child}, root, s.table, 1));
    VictimHeld(m, own, root, low, bias, keep, s);
    VictimView(m.mem, own, root, low, bias, c);
  }

  lemma VictimHeld(m: Memory, own: map<nat, Place>, root: nat, low: nat, bias: map<Slot, int>, keep: set<nat>, s: Slot)
    requires Tree(m.mem, own, root, low, bias) && Held(m.mem, own, bias, keep) && Get(m.mem, s).addr !in keep
    requires InTree(m.mem, own, s) && PointsDown(Get(m.mem, s), own[s.table].level)
      && Twig(m.mem, own, low, Get(m.mem, s).addr)
    ensures Held(Free(m, s).mem, own - {Get(m.mem, s).addr}, bias, keep)
  {
    FactsOf(m.mem, own, root, low, bias, s.table, s.index);
    FreeHeld(m, own, bias, keep, s);
  }

  lemma VictimView(mem: Tables, own: map<nat, Place>, root: nat, low: nat, bias: map<Slot, int>, c: Victim)
    requires Tree(mem, own, root, low, bias) && Eligible(mem, own, root, low, c)
    ensures Lost(mem, Drop(mem, SlotOf(mem, root, c)), root, c)
  {
    var s := SlotOf(mem, root, c);
    forall w: nat | w < Span(5)
      ensures View(Drop(mem, s), 4, root, w) == if Covers(c, w) then None else View(mem, 4, root, w)
    {
      DropView(mem, own, root, low, bias, s, w);
    }
  }

  lemma VictimBias(own: map<nat, Place>, root: nat, bias: map<Slot, int>, s: Slot, child: nat)
    requires s.table in own && s.table != child && Bias(bias, s) == 0
    requires s.table != root ==> own[s.table].parent != s.table
    ensures SameBias(Shift(bias - {s}, own, root, s.table, 1), Shift(bias, own - {child}, root, s.table, 1))
  {
  }

  lemma VictimPath(m: Memory, own: map<nat, Place>, root: nat, c: Victim)
    requires Linked(m.mem, own, root) && Names(m.mem, own, root, c)
      && OnPath(m.mem, own, root, c, SlotOf(m.mem, root, c).table)
    ensures OnPath(Free(m, SlotOf(m.mem, root, c)).mem, own - {Get(m.mem, SlotOf(m.mem, root, c)).addr}, root, c,
                   SlotOf(m.mem, root, c).table)
  {
    var s := SlotOf(m.mem, root, c);
    LinksOf(m.mem, own, root, s.table, s.index);
    if c.level < 4 {
      LinksOf(m.mem, own, root, own[s.table].parent, 0);
    }
    PathKept(m, own, root, c, s, Get(m.mem, s).addr);
  }

  lemma PathKept(m: Memory, own: map<nat, Place>, root: nat, c: Victim, s: Slot, child: nat)
    requires OnPath(m.mem, own, root, c, s.table) && s == SlotOf(m.mem, root, c) && InTree(m.mem, own, s)
      && 2 <= c.level <= 4
    requires child == Get(m.mem, s).addr && child in own && own[child].level == c.level - 1 && child != s.table
    requires root in own && own[root].level == 4
    requires c.level < 4 ==> Hangs(m.mem, own, s.table)
    requires c.level == 2 ==> own[s.table].parent != root && Hangs(m.mem, own, own[s.table].parent)
    ensures OnPath(Free(m, s).mem, own - {child}, root, c, s.table)
  {
  }

  lemma LostOn(a: Tables, b: Tables, c: Tables, root: nat, v: Victim)
    requires SameView(a, b, root) && Lost(b, c, root, v)
    ensures Lost(a, c, root, v)
  {
    forall w: nat | w < Span(5) ensures View(c, 4, root, w) == if Covers(v, w) then None else View(a, 4, root, w) {
      assert View(b, 4, root, w) == View(b, 4, root, w);
    }
  }

  lemma LostThen(a: Tables, b: Tables, c: Tables, root: nat, v: Victim)
    requires Lost(a, b, root, v) && SameView(b, c, root)
    ensures Lost(a, c, root, v)
  {
    forall w: nat | w < Span(5) ensures View(c, 4, root, w) == if Covers(v, w) then None else View(a, 4, root, w) {
      assert View(b, 4, root, w) == View(b, 4, root, w);
    }
  }

  lemma ReleaseAll(m: Memory, own: map<nat, Place>, root: nat, low: nat, bias: map<Slot, int>, keep: set<nat>,
                   c: Victim)
    returns (own': map<nat, Place>)
    requires Tree(m.mem, own, root, low, bias) && Apart(m.mem, m.pool) && Eligible(m.mem, own, root, low, c)
    requires Held(m.mem, own, bias, keep) && Spares(Climb(Free(m, SlotOf(m.mem, root, c)), root, c).pool, keep)
    ensures var m' := Climb(Free(m, SlotOf(m.mem, root, c)), root, c);
      && Tree(m'.mem, own', root, low, bias) && Apart(m'.mem, m'.pool)
      && Pages(m'.mem, m'.pool) == Pages(m.mem, m.pool) && Kept(own, own', m'.pool)
      && |m.pool| + 1 <= |m'.pool| <= |m.pool| + 3 && MaskedSame(m.mem, m'.mem) && Lost(m.mem, m'.mem, root, c)
  {
    var s := SlotOf(m.mem, root, c);
    var child := Get(m.mem, s).addr;
    ClimbPool(Free(m, s), root, c);
    assert Free(m, s).pool[|m.pool|] == child && child in Climb(Free(m, s), root, c).pool;
    ReleaseVictim(m, own, root, low, bias, keep, c);
    own' := ClimbKeeps(Free(m, s), own - {child}, root, low, bias, keep, c, s.table);
    MaskedOn(m.mem, Free(m, s).mem, Climb(Free(m, s), root, c).mem);
    LostThen(m.mem, Free(m, s).mem, Climb(Free(m, s), root, c).mem, root, c);
  }

  /** The entry that ReclaimPages chooses. */
  function Chosen(m: Memory, root: nat): Option<Victim> {
    match Pick(m.mem, root, AllCandidates(m.mem, root))
    case None => None
    case Some(best) => Some(best.victim)
  }

  /** ReclaimPages takes the candidate least recently used, gives one to three pages back to the pool, loses and
      doubles none, keeps the tree with its counts and the masked entries, and removes the translations under the
      chosen entry only.  Counts may be ahead or behind at entries to tables in `keep`, as in the middle of a walk,
      if none of these tables is released. */
  lemma ReclaimKeeps(m: Memory, own: map<nat, Place>, root: nat, low: nat, bias: map<Slot, int>, keep: set<nat>, t: nat)
    returns (own': map<nat, Place>, i: nat)
    requires Tree(m.mem, own, root, low, bias) && Apart(m.mem, m.pool)
    requires Held(m.mem, own, bias, keep) && Spares(Reclaim(m, root).pool, keep)
    requires t in m.mem && t != root && t != low
    ensures Pick(m.mem, root, AllCandidates(m.mem, root)).Some?
    ensures LeastUsed(m.mem, root, AllCandidates(m.mem, root), i)
    ensures Chosen(m, root) == Some(AllCandidates(m.mem, root)[i]) && Aged(m.mem, Reclaim(m, root).mem, root)
    ensures var m' := Reclaim(m, root);
      && Tree(m'.mem, own', root, low, bias) && Apart(m'.mem, m'.pool)
      && Pages(m'.mem, m'.pool) == Pages(m.mem, m.pool) && Kept(own, own', m'.pool)
      && |m.pool| + 1 <= |m'.pool| <= |m.pool| + 3 && MaskedSame(m.mem, m'.mem)
    ensures Lost(m.mem, Reclaim(m, root).mem, root, Chosen(m, root).value)
  {
    var cs := AllCandidates(m.mem, root);
    SomeCandidate(m.mem, own, root, low, bias, t);
    TreeIsLinked(m.mem, own, root, low, bias);
    CandidatesApart(m.mem, own, root);
    i := PickIsFirstLeast(m.mem, root, cs);
    FirstLeastIs(m.mem, root, cs, Pick(m.mem, root, cs).value, i);
    ReclaimAges(m, own, root);
    var c := cs[i];
    var aged := m.(mem := AgeAll(m.mem, root, cs));
    AgeAllShape(m.mem, root, cs);
    ShapeTree(m.mem, aged.mem, own, root, low, bias);
    CandidateIsEligible(m.mem, own, root, low, bias, c);
    AgedSlot(m.mem, aged.mem, own, root, low, c);
    AgedMasked(m.mem, own, root);
    AgedHeld(m.mem, aged.mem, own, bias, keep);
    own' := ReleaseAll(aged, own, root, low, bias, keep, c);
    MaskedOn(m.mem, aged.mem, Reclaim(m, root).mem);
    forall w: nat | w < Span(5) ensures View(aged.mem, 4, root, w) == View(m.mem, 4, root, w) {
      ShapeView(m.mem, aged.mem, 4, root, w);
    }
    LostOn(m.mem, aged.mem, Reclaim(m, root).mem, root, c);
  }

  // ---------------------------------------------------------------- reclaiming only takes entries away

  lemma ShapeShrunk(mem: Tables, mem': Tables)
    requires SameShape(mem, mem')
    ensures Shrunk(mem, mem')
  {
    forall t | t in mem' ensures forall k {:trigger mem'[t][k]} :: 0 <= k < |mem[t]| ==> Fewer(mem[t][k], mem'[t][k]) {
      forall k | 0 <= k < |mem[t]| ensures Fewer(mem[t][k], mem'[t][k]) {
        SameGet(mem, mem', Slot(t, k));
        assert Get(mem', Slot(t, k)) == mem'[t][k];
      }
    }
  }

  /** Entries that stay present keep all but their number of sub-entries. */
  ghost predicate Trimmed(mem: Tables, mem': Tables) {
    forall t {:trigger mem'[t]} :: t in mem' ==>
      && t in mem && |mem'[t]| == |mem[t]|
      && forall k {:trigger mem'[t][k]} :: 0 <= k < |mem[t]| ==> Trim(mem[t][k], mem'[t][k])
  }

  predicate Trim(e: Entry, e': Entry) { !e'.p || e' == e.(sub := e'.sub) }

  lemma TrimmedOn(a: Tables, b: Tables, c: Tables)
    requires Trimmed(a, b) && Trimmed(b, c)
    ensures Trimmed(a, c)
  {
    forall t | t in c
      ensures t in a && |c[t]| == |a[t]| && forall k {:trigger c[t][k]} :: 0 <= k < |a[t]| ==> Trim(a[t][k], c[t][k])
    {
      forall k | 0 <= k < |a[t]| ensures Trim(a[t][k], c[t][k]) {
        assert Trim(b[t][k], c[t][k]);
        assert Trim(a[t][k], b[t][k]);
      }
    }
  }

  lemma FreeTrimmed(m: Memory, s: Slot)
    ensures Trimmed(m.mem, Free(m, s).mem)
  {
  }

  lemma SetSubTrimmed(mem: Tables, s: Slot, n: nat)
    requires s.table in mem && s.index < |mem[s.table]|
    ensures Trimmed(mem, SetSub(mem, s, n))
  {
  }

  lemma {:induction false} ClimbTrimmed(m: Memory, root: nat, c: Victim)
    ensures Trimmed(m.mem, Climb(m, root, c).mem)
    decreases 4 - c.level
  {
    if c.level < 4 {
      var up := c.(level := c.level + 1);
      var u := SlotOf(m.mem, root, up);
      if Get(m.mem, u).sub == 0 {
        FreeTrimmed(m, u);
        ClimbTrimmed(Free(m, u), root, up);
        TrimmedOn(m.mem, Free(m, u).mem, Climb(m, root, c).mem);
      } else if u.table in m.mem && u.index < |m.mem[u.table]| {
        SetSubTrimmed(m.mem, u, Get(m.mem, u).sub - 1);
      }
    }
  }

  /** The release after the scan. */
  lemma ReclaimTrimmed(m: Memory, root: nat)
    ensures Trimmed(AgeAll(m.mem, root, AllCandidates(m.mem, root)), Reclaim(m, root).mem)
  {
    var cs := AllCandidates(m.mem, root);
    var aged := m.(mem := AgeAll(m.mem, root, cs));
    var best := Pick(m.mem, root, cs);
    if best.Some? {
      var c := best.value.victim;
      var s := SlotOf(aged.mem, root, c);
      FreeTrimmed(aged, s);
      ClimbTrimmed(Free(aged, s), root, c);
      TrimmedOn(aged.mem, Free(aged, s).mem, Reclaim(m, root).mem);
    }
  }

  lemma TrimmedIsShrunk(mem: Tables, mem': Tables)
    requires Trimmed(mem, mem')
    ensures Shrunk(mem, mem')
  {
    forall t | t in mem' ensures forall k {:trigger mem'[t][k]} :: 0 <= k < |mem[t]| ==> Fewer(mem[t][k], mem'[t][k]) {
      forall k | 0 <= k < |mem[t]| ensures Fewer(mem[t][k], mem'[t][k]) {
        assert Trim(mem[t][k], mem'[t][k]);
      }
    }
  }

  lemma ReclaimShrunk(m: Memory, root: nat)
    ensures Shrunk(m.mem, Reclaim(m, root).mem)
  {
    var cs := AllCandidates(m.mem, root);
    var aged := AgeAll(m.mem, root, cs);
    AgeAllShape(m.mem, root, cs);
    ShapeShrunk(m.mem, aged);
    ReclaimTrimmed(m, root);
    TrimmedIsShrunk(aged, Reclaim(m, root).mem);
    ShrunkOn(m.mem, aged, Reclaim(m, root).mem);
  }

  // ---------------------------------------------------------------- what ReclaimPages leaves of the access marks

  /** What becomes of an entry e that stays present: if it was a candidate, its mark and its record have aged. */
  predicate Marked(e: Entry, e': Entry, candidate: bool) {
    if candidate && e.a then !e'.a && e'.acc == 7
    else e'.a == e.a && e'.acc == if candidate && e.acc > 0 then e.acc - 1 else e.acc
  }

  ghost predicate IsCandidate(mem: Tables, root: nat, s: Slot) {
    exists c {:trigger SlotOf(mem, root, c)} :: c in AllCandidates(mem, root) && SlotOf(mem, root, c) == s
  }

  /** The marks and records of all entries that are still there. */
  ghost predicate Aged(was: Tables, now: Tables, root: nat) {
    forall t, k {:trigger now[t][k]} :: t in now && 0 <= k < |now[t]| && now[t][k].p ==>
      Marked(Get(was, Slot(t, k)), now[t][k], IsCandidate(was, root, Slot(t, k)))
  }

  lemma AgedEntry(mem: Tables, own: map<nat, Place>, root: nat, t: nat, k: nat)
    requires Linked(mem, own, root) && t in mem && k < |mem[t]|
    ensures var aged := AgeAll(mem, root, AllCandidates(mem, root));
      t in aged && |aged[t]| == |mem[t]| && Marked(mem[t][k], aged[t][k], IsCandidate(mem, root, Slot(t, k)))
  {
    var cs := AllCandidates(mem, root);
    AgeAllShape(mem, root, cs);
    CandidatesApart(mem, own, root);
    if IsCandidate(mem, root, Slot(t, k)) {
      var c :| c in cs && SlotOf(mem, root, c) == Slot(t, k);
      var i :| 0 <= i < |cs| && cs[i] == c;
      AgeAllAt(mem, root, cs, i);
      assert Get(AgeAll(mem, root, cs), Slot(t, k)) == AgeAll(mem, root, cs)[t][k];
    } else {
      forall i | 0 <= i < |cs| ensures SlotOf(mem, root, cs[i]) != Slot(t, k) { assert cs[i] in cs; }
      AgeAllElsewhere(mem, root, cs, Slot(t, k));
      assert Get(AgeAll(mem, root, cs), Slot(t, k)) == AgeAll(mem, root, cs)[t][k];
    }
  }

  lemma ReclaimAges(m: Memory, own: map<nat, Place>, root: nat)
    requires Linked(m.mem, own, root)
    ensures Aged(m.mem, Reclaim(m, root).mem, root)
  {
    var now: Tables := Reclaim(m, root).mem;
    var aged := AgeAll(m.mem, root, AllCandidates(m.mem, root));
    AgeAllShape(m.mem, root, AllCandidates(m.mem, root));
    ReclaimTrimmed(m, root);
    forall t, k | t in now && 0 <= k < |now[t]| && now[t][k].p
      ensures Marked(Get(m.mem, Slot(t, k)), now[t][k], IsCandidate(m.mem, root, Slot(t, k)))
    {
      AgedEntry(m.mem, own, root, t, k);
      assert Trim(aged[t][k], now[t][k]);
    }
  }

  // ---------------------------------------------------------------- what the scan loops keep

  /** The scan after the candidates cs: the tables as aged so far, and the choice so far. */
  datatype Scan = Scan(mem: Tables, best: Option<Best>)

  function Scanned(mem: Tables, root: nat, cs: seq<Victim>): Scan { Scan(AgeAll(mem, root, cs), Pick(mem, root, cs)) }

  lemma ScannedNext(mem: Tables, root: nat, cs: seq<Victim>, c: Victim)
    ensures Scanned(mem, root, cs + [c])
         == Scan(AgeAt(AgeAll(mem, root, cs), SlotOf(mem, root, c)),
                 Better(Pick(mem, root, cs), Rank(Get(AgeAll(mem, root, cs), SlotOf(mem, root, c))), c))
  {
    assert (cs + [c])[..|cs|] == cs;
  }

  /** The scan leaves all but the access marks of an entry as they were. */
  lemma ScannedEntry(was: Tables, root: nat, cs: seq<Victim>, now: Scan, t: nat, k: nat)
    requires now == Scanned(was, root, cs) && t in was && k < |was[t]|
    ensures t in now.mem && |now.mem[t]| == |was[t]|
    ensures now.mem[t][k] == was[t][k].(a := now.mem[t][k].a, acc := now.mem[t][k].acc)
  {
    AgeAllShape(was, root, cs);
  }

  lemma PdtNext(cs: seq<Victim>, t: Table, i4: nat, i3: nat, k: nat)
    requires k < |t|
    ensures var now := cs + PdtCandidates(t, i4, i3, k);
      cs + PdtCandidates(t, i4, i3, k + 1) == if Skip(t[k]) || t[k].ps then now else now + [Victim(2, i4, i3, k)]
  {
  }

  lemma PdptNext(mem: Tables, cs: seq<Victim>, t: Table, i4: nat, k: nat)
    requires k < |t|
    ensures var now := cs + PdptCandidates(mem, t, i4, k);
      cs + PdptCandidates(mem, t, i4, k + 1)
        == if Skip(t[k]) || t[k].ps then now else now + UnderPdpte(mem, t[k], i4, k)
  {
  }

  /** The entries of table t that the scan follows lead to tables. */
  ghost predicate Leads(mem: Tables, t: nat, top: bool) {
    && t in mem && |mem[t]| == 512
    && forall k {:trigger mem[t][k]} :: 0 <= k < 512 && !Skip(mem[t][k]) && (top || !mem[t][k].ps)
         ==> mem[t][k].addr in mem && |mem[mem[t][k].addr]| == 512
  }

  lemma LeadsOf(mem: Tables, own: map<nat, Place>, root: nat, t: nat)
    requires Linked(mem, own, root) && t in own && own[t].level >= 2
    ensures Leads(mem, t, own[t].level == 4)
  {
    LinksOf(mem, own, root, t, 0);
    forall k | 0 <= k < 512 && !Skip(mem[t][k]) && (own[t].level == 4 || !mem[t][k].ps)
      ensures mem[t][k].addr in mem && |mem[mem[t][k].addr]| == 512
    {
      LinkBelow(mem, own, root, t, k);
    }
  }

  /** Both levels of the scan can follow what they find. */
  ghost predicate Scannable(mem: Tables, root: nat) {
    && Leads(mem, root, true)
    && forall k {:trigger mem[root][k]} :: 0 <= k < 512 && !Skip(mem[root][k]) ==> Leads(mem, mem[root][k].addr, false)
  }

  lemma LinkedIsScannable(mem: Tables, own: map<nat, Place>, root: nat)
    requires Linked(mem, own, root)
    ensures Scannable(mem, root)
  {
    LeadsOf(mem, own, root, root);
    forall k | 0 <= k < 512 && !Skip(mem[root][k]) ensures Leads(mem, mem[root][k].addr, false) {
      LinkBelow(mem, own, root, root, k);
      LeadsOf(mem, own, root, mem[root][k].addr);
    }
  }
}
