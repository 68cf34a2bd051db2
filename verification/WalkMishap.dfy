/** The fault handler on an input for which a reclaim takes the walked table away: six requests after start-up have used
    the pool up, and the seventh is for a 4KB page in another 2MB of the 1GB whose only page table is reclaimed. */
module WalkMishap {
  import opened Common
  import opened Sums
  import opened PagingTree
  import opened PageReclaim
  import opened DemandPaging
  import opened ReclaimInWalk

  function Low(base: nat): nat { base + PAGE_TABLE_PAGES + 1 }

  /** The first page above 512GB. */
  const PAGE := 134217728

  /** The memory after a request for the 4KB page at 512GB, and one for 1GB in each of the n following 512GB. */
  function Requests(base: nat, n: nat): Memory {
    if n == 0 then MapOne(Initial(base), base, PAGE, 1, 0)
    else MapOne(Requests(base, n - 1), base, (n + 1) * PAGE, 3, 0)
  }

  /** A table with one entry. */
  function Single(k: nat, e: Entry): (r: Table)
    requires k < 512
    ensures |r| == 512 && r[k] == e && forall i {:trigger r[i]} :: 0 <= i < 512 && i != k ==> r[i] == EMPTY
  {
    Blank()[k := e]
  }

  /** What that memory is. */
  ghost predicate Taken(m: Memory, base: nat, n: nat) {
    && base in m.mem && base + 1 in m.mem && base + 2 in m.mem && base + 3 in m.mem && |m.mem[base]| == 512
    && m.mem[base][1] == TableEntry(base + 1)
    && (forall k {:trigger m.mem[base][k]} :: n + 1 < k < 512 ==> !m.mem[base][k].p)
    && m.mem[base + 1] == Single(0, TableEntry(base + 2)) && m.mem[base + 2] == Single(0, TableEntry(base + 3))
    && m.mem[base][0] == Entry(true, false, false, false, 0, 3, Low(base), 0)
    && Low(base) in m.mem && m.mem[Low(base)] == FirstPdpt(Low(base))
    && |m.pool| == 5 - n && (forall i {:trigger m.pool[i]} :: 0 <= i < |m.pool| ==> m.pool[i] == base + 4 + n + i)
    && Marked(m.mem, Low(base))
  }

  /** Every entry is marked as accessed but those for the first 4GB. */
  ghost predicate Marked(mem: Tables, low: nat) {
    forall t, k {:trigger mem[t][k]} :: t in mem && 0 <= k < |mem[t]| && mem[t][k].p && !mem[t][k].a ==>
      mem[t][k].pmnt || mem[t][k].addr == low
  }

  lemma WalkMore(x: Walker, root: nat, v: nat, end: nat)
    requires x.level > end && Down(x, root, v).level < x.level
    ensures WalkTo(x, root, v, end) == WalkTo(Down(x, root, v), root, v, end)
  {
  }

  /** A step to a new table, with a page from the pool. */
  lemma StepNew(x: Walker, root: nat, v: nat, k: nat, end: nat) returns (y: Walker)
    requires k == Index(v, x.level) && x.t in x.m.mem && |x.m.mem[x.t]| == 512 && !x.m.mem[x.t][k].p && end < x.level
    requires |x.m.pool| > 0 && x.m.pool[0] != x.t
    ensures y == Walker(Memory(Attach(x.m.mem, Slot(x.t, k), TableEntry(x.m.pool[0]), Blank()), x.m.pool[1..]),
                        x.level - 1, x.m.pool[0], x.upper)
    ensures WalkTo(x, root, v, end) == WalkTo(y, root, v, end) && Down(x, root, v) == y
  {
    y := Down(x, root, v);
    WalkMore(x, root, v, end);
  }

  lemma StartUp(base: nat)
    ensures Taken(Requests(base, 0), base, 0)
  {
    var m := Initial(base);
    var x := AtRoot(m, base);
    assert Index(PAGE, 4) == 1 && Index(PAGE, 3) == 0 && Index(PAGE, 2) == 0 && Index(PAGE, 1) == 0;
    var x1 := StepNew(x, base, PAGE, 1, 1);
    var x2 := StepNew(x1, base, PAGE, 0, 1);
    var x3 := StepNew(x2, base, PAGE, 0, 1);
    assert WalkTo(x, base, PAGE, 1) == x3;
    StartTables(m, base, x1, x2, x3);
  }

  lemma StartTables(m: Memory, base: nat, x1: Walker, x2: Walker, x3: Walker)
    requires m == Initial(base)
    requires x1 == Walker(Memory(Attach(m.mem, Slot(base, 1), TableEntry(base + 1), Blank()), m.pool[1..]), 3,
      base + 1, None)
    requires x2 == Walker(Memory(Attach(x1.m.mem, Slot(base + 1, 0), TableEntry(base + 2), Blank()), m.pool[2..]), 2,
      base + 2, None)
    requires x3 == Walker(Memory(Attach(x2.m.mem, Slot(base + 2, 0), TableEntry(base + 3), Blank()), m.pool[3..]), 1,
      base + 3, None)
    ensures Taken(Memory(Finish(x3, PAGE, 1, 0), x3.m.pool), base, 0)
  {
  }

  /** One more request for 1GB. */
  lemma {:induction false} NextRequest(base: nat, n: nat)
    requires n <= 5
    ensures Taken(Requests(base, n), base, n)
  {
    if n == 0 {
      StartUp(base);
    } else {
      NextRequest(base, n - 1);
      var m, v := Requests(base, n - 1), (n + 1) * PAGE;
      var x := AtRoot(m, base);
      BlockIndex(n + 1);
      var y := StepNew(x, base, v, n + 1, 3);
      assert WalkTo(x, base, v, 3) == y;
      NextTables(m, base, n, v, y);
    }
  }

  lemma NextTables(m: Memory, base: nat, n: nat, v: nat, y: Walker)
    requires 1 <= n <= 5 && Taken(m, base, n - 1) && v == (n + 1) * PAGE && Index(v, 3) == 0
    requires y == Walker(Memory(Attach(m.mem, Slot(base, n + 1), TableEntry(base + 3 + n), Blank()), m.pool[1..]), 3,
      base + 3 + n, None)
    ensures Taken(Memory(Finish(y, v, 3, 0), y.m.pool), base, n)
  {
  }

  // ---------------------------------------------------------------- the memory is sound

  lemma {:induction false} RequestsAreSound(base: nat, n: nat) returns (own: map<nat, Place>)
    requires n <= 5
    ensures Sound(Requests(base, n), own, base, Low(base))
  {
    if n == 0 {
      own := FirstIsSound(base);
      own := OneMore(Initial(base), own, base, PAGE, 1);
    } else {
      own := RequestsAreSound(base, n - 1);
      own := LaterRequestIsSound(Requests(base, n - 1), own, base, n);
    }
  }

  lemma LaterRequestIsSound(m: Memory, own: map<nat, Place>, base: nat, n: nat) returns (own': map<nat, Place>)
    requires 1 <= n <= 5 && m == Requests(base, n - 1) && Sound(m, own, base, Low(base))
    ensures Sound(MapOne(m, base, (n + 1) * PAGE, 3, 0), own', base, Low(base))
  {
    NextRequest(base, n - 1);
    BlockIndex(n + 1);
    own' := OneMore(m, own, base, (n + 1) * PAGE, 3);
  }

  lemma BlockIndex(k: nat)
    requires k < 512
    ensures Index(k * PAGE, 4) == k && Index(k * PAGE, 3) == 0 && k * PAGE + Span(3) <= Span(5)
  {
    assert k * PAGE == 262144 * (512 * k);
  }

  lemma FirstIsSound(base: nat) returns (own: map<nat, Place>)
    ensures Sound(Initial(base), own, base, Low(base))
  {
    var low := Low(base);
    FirstTree(base, low, FirstPml4(low), FirstPdpt(low));
    own := map[base := Place(4, 0, base), low := Place(3, 0, base)];
    assert Initial(base).pool[0] in Pages(Initial(base).mem, Initial(base).pool);
  }

  lemma OneMore(m: Memory, own: map<nat, Place>, base: nat, v: nat, end: nat) returns (own': map<nat, Place>)
    requires Sound(m, own, base, Low(base)) && 1 <= end <= 3 && base in m.mem && |m.mem[base]| == 512
    requires !m.mem[base][Index(v, 4)].p && 4 - end <= |m.pool| && InSpace(v, end, 1) && Index(v, end) < 511
    ensures Sound(MapOne(m, base, v, end, 0), own', base, Low(base))
  {
    ClearIffUntranslated(m.mem, own, base, Low(base), v, end);
    MissingBound(m.mem, 4, base, v, end);
    own' := PlentyStep(m, own, base, Low(base), v, end, 0, 1);
  }

  // ---------------------------------------------------------------- the first candidate

  lemma {:induction false} PdtPrefix(t: Table, i4: nat, i3: nat, n: nat, k: nat)
    requires k <= n <= |t|
    ensures PdtCandidates(t, i4, i3, k) <= PdtCandidates(t, i4, i3, n)
  {
    if k < n { PdtPrefix(t, i4, i3, n - 1, k); }
  }

  lemma {:induction false} PdptPrefix(mem: Tables, t: Table, i4: nat, n: nat, k: nat)
    requires k <= n <= |t|
    ensures PdptCandidates(mem, t, i4, k) <= PdptCandidates(mem, t, i4, n)
  {
    if k < n { PdptPrefix(mem, t, i4, n - 1, k); }
  }

  lemma {:induction false} CandidatesPrefix(mem: Tables, t: Table, n: nat, k: nat)
    requires k <= n <= |t|
    ensures Candidates(mem, t, k) <= Candidates(mem, t, n)
  {
    if k < n { CandidatesPrefix(mem, t, n - 1, k); }
  }

  lemma {:induction false} NoneInLow(mem: Tables, base: nat, n: nat)
    requires n <= 512
    ensures PdptCandidates(mem, FirstPdpt(Low(base)), 0, n) == []
  {
    if n > 0 { NoneInLow(mem, base, n - 1); }
  }

  /** The page table for the first request comes first in the scan. */
  lemma FirstCandidate(m: Memory, base: nat, n: nat)
    requires Taken(m, base, n) && n <= 5
    ensures [Victim(2, 1, 0, 0)] <= AllCandidates(m.mem, base)
  {
    var c := Victim(2, 1, 0, 0);
    var root, pdpt, pdt := m.mem[base], m.mem[base + 1], m.mem[base + 2];
    PdtPrefix(pdt, 1, 0, 512, 1);
    assert PdtCandidates(pdt, 1, 0, 1) == [] + [c];
    assert [c] <= UnderPdpte(m.mem, pdpt[0], 1, 0);
    PdptPrefix(m.mem, pdpt, 1, 512, 1);
    assert PdptCandidates(m.mem, pdpt, 1, 1) == [] + UnderPdpte(m.mem, pdpt[0], 1, 0);
    assert [c] <= UnderPml4e(m.mem, root[1], 1);
    NoneInLow(m.mem, base, 512);
    HoldsNone(FirstPdpt(Low(base)), 512);
    assert Holds(FirstPdpt(Low(base))[0]) && TableAt(m.mem, Low(base)) == FirstPdpt(Low(base));
    assert UnderPml4e(m.mem, root[0], 0) == [];
    CandidatesPrefix(m.mem, root, 512, 2);
    assert Candidates(m.mem, root, 1) == [] + [];
    assert Candidates(m.mem, root, 2) == [] + UnderPml4e(m.mem, root[1], 1);
  }

  /** All candidates have the same rank, so that the first of them is chosen. */
  lemma FirstIsChosen(m: Memory, own: map<nat, Place>, base: nat)
    requires Taken(m, base, 5) && Sound(m, own, base, Low(base))
    ensures Chosen(m, base) == Some(Victim(2, 1, 0, 0))
  {
    var cs := AllCandidates(m.mem, base);
    FirstCandidate(m, base, 5);
    TreeIsLinked(m.mem, own, base, Low(base), map[]);
    CandidatesApart(m.mem, own, base);
    var i := PickIsFirstLeast(m.mem, base, cs);
    forall j | 0 <= j < |cs| ensures RankAt(m.mem, base, cs[j]) == 15 {
      CandidateIsEligible(m.mem, own, base, Low(base), map[], cs[j]);
      var s := SlotOf(m.mem, base, cs[j]);
      assert m.mem[s.table][s.index].a;
    }
    assert cs[0] == [Victim(2, 1, 0, 0)][0];
    assert i == 0;
  }

  /** With that page table its page directory is released, for it counts no other. */
  lemma DirectoryReleased(m: Memory, own: map<nat, Place>, base: nat)
    requires Taken(m, base, 5) && Sound(m, own, base, Low(base))
    ensures base + 2 in Reclaim(m, base).pool
  {
    var c := Victim(2, 1, 0, 0);
    var cs := AllCandidates(m.mem, base);
    var aged := m.(mem := AgeAll(m.mem, base, cs));
    FirstIsChosen(m, own, base);
    AgeAllShape(m.mem, base, cs);
    SameSlot(m.mem, aged.mem, base, c);
    var s := SlotOf(aged.mem, base, c);
    assert s == Slot(base + 2, 0);
    SameGet(m.mem, aged.mem, s);
    SameGet(m.mem, aged.mem, Slot(base, 1));
    SameGet(m.mem, aged.mem, Slot(base + 1, 0));
    var f := Free(aged, s);
    assert SlotOf(f.mem, base, c.(level := 3)) == Slot(base + 1, 0);
    FreedInPool(f, base, c, Slot(base + 1, 0));
  }

  // ---------------------------------------------------------------- the seventh request

  /** A step along an entry that is marked already. */
  lemma StepAlong(x: Walker, root: nat, v: nat, k: nat, end: nat) returns (y: Walker)
    requires k == Index(v, x.level) && x.t in x.m.mem && |x.m.mem[x.t]| == 512 && end < x.level
    requires var e := x.m.mem[x.t][k]; e.p && e.a && e.acc == 7
    ensures y == Walker(x.m, x.level - 1, x.m.mem[x.t][k].addr, Some(Slot(x.t, k)))
    ensures Down(x, root, v) == y && (Get(x.m.mem, Slot(x.t, k)).p ==> Spared(x, root, v))
  {
    y := Down(x, root, v);
    var e := x.m.mem[x.t][k];
    assert e.(a := true, acc := 7) == e;
    assert x.m.mem[x.t][k := e] == x.m.mem[x.t];
  }

  lemma DirectoryOnPath(m: Memory, base: nat, v: nat)
    requires Taken(m, base, 5) && Index(v, 4) == 1 && Index(v, 3) == 0
    ensures base + 2 in Path(m.mem, 4, base, v, 2)
  {
    assert base + 2 in Path(m.mem, 2, base + 2, v, 2);
    assert base + 2 in Path(m.mem, 3, base + 1, v, 2);
  }

  lemma SeventhWalk(m: Memory, own: map<nat, Place>, base: nat, v: nat)
    requires Taken(m, base, 5) && Sound(m, own, base, Low(base))
    requires Index(v, 4) == 1 && Index(v, 3) == 0 && Index(v, 2) == 1
    ensures Clear(m.mem, 4, base, v, 1) && !AllSpared(AtRoot(m, base), base, v, 1)
  {
    DirectoryReleased(m, own, base);
    DirectoryOnPath(m, base, v);
    var x := AtRoot(m, base);
    var x1 := StepAlong(x, base, v, 1, 1);
    var x2 := StepAlong(x1, base, v, 0, 1);
    NotSpared(x, x1, x2, base, v);
    assert Clear(m.mem, 2, base + 2, v, 1) && Clear(m.mem, 3, base + 1, v, 1);
  }

  /** After these six requests the tree is sound and the path to the next 2MB is free, but the reclaim takes the walked
      page directory away and the page is not mapped. */
  lemma PageIsLost(base: nat) returns (own: map<nat, Place>)
    ensures var m, v := Requests(base, 5), PAGE + 512;
      && Sound(m, own, base, Low(base)) && Clear(m.mem, 4, base, v, 1) && !AllSpared(AtRoot(m, base), base, v, 1)
      && View(MapOne(m, base, v, 1, 0).mem, 4, base, v) == None
  {
    var m, v := Requests(base, 5), PAGE + 512;
    own := RequestsAreSound(base, 5);
    NextRequest(base, 5);
    SeventhWalk(m, own, base, v);
    MappedIffSpared(m, own, base, Low(base), v, 1, 0);
  }

  lemma NotSpared(x: Walker, x1: Walker, x2: Walker, root: nat, v: nat)
    requires x1 == Down(x, root, v) && x2 == Down(x1, root, v) && 1 < x2.level < x1.level < x.level
      && !Spared(x2, root, v)
    ensures !AllSpared(x, root, v, 1)
  {
    assert !AllSpared(x2, root, v, 1);
    assert !AllSpared(x1, root, v, 1);
  }
}
