/** The MSR lock table of CpuS3.c: one spin lock for each MSR whose bit fields the register tables write, in a
    table that grows by a page of locks when it is full. */
module MsrLocks {
  import opened Common

  /** MP_MSR_LOCK: the MSR and the address of its lock; (UINT32)-1 while unused. */
  datatype MsrLock = MsrLock(msrIndex: nat, spinLock: nat)

  const UNUSED: nat := 0xFFFF_FFFF

  /** A stretch of memory set aside for locks. */
  datatype Area = Area(base: nat, length: nat)

  /** Position of an MSR among the first n entries; n when it has none. */
  function Position(locks: seq<MsrLock>, n: nat, msr: nat, k: nat): (r: nat)
    requires k <= n <= |locks|
    ensures k <= r <= n && (r < n ==> locks[r].msrIndex == msr) && forall i :: k <= i < r ==> locks[i].msrIndex != msr
    decreases n - k
  {
    if k == n || locks[k].msrIndex == msr then k else Position(locks, n, msr, k + 1)
  }

  /** The i-th of the first n entries is the first for this MSR. */
  ghost predicate FirstEntry(locks: seq<MsrLock>, n: nat, msr: nat, i: int) {
    0 <= i < n <= |locks| && locks[i].msrIndex == msr && forall j :: 0 <= j < i ==> locks[j].msrIndex != msr
  }

  /** GetMsrSpinLockByIndex: the lock of an MSR among the first n entries. */
  function LockOf(locks: seq<MsrLock>, n: nat, msr: nat): Option<nat>
    requires n <= |locks|
  {
    var k := Position(locks, n, msr, 0);
    if k < n then Some(locks[k].spinLock) else None
  }

  /** count locks of `size` bytes fit an area, one after the other. */
  function Carve(base: nat, size: nat, count: nat): (r: seq<MsrLock>)
    ensures |r| == count && forall i {:trigger r[i]} :: 0 <= i < count ==> r[i] == MsrLock(UNUSED, base + i * size)
  {
    seq(count, i requires 0 <= i < count => MsrLock(UNUSED, base + i * size))
  }

  predicate Inside(a: Area, address: nat, size: nat) { a.base <= address && address + size <= a.base + a.length }

  predicate Apart(a: Area, b: Area) { a.base + a.length <= b.base || b.base + b.length <= a.base }

  /** Locks do not overlap. */
  ghost predicate Disjoint(locks: seq<MsrLock>, size: nat) {
    forall i, j {:trigger LocksApart(locks, size, i, j)} :: 0 <= i < j < |locks| ==> LocksApart(locks, size, i, j)
  }

  predicate LocksApart(locks: seq<MsrLock>, size: nat, i: nat, j: nat)
    requires i < |locks| && j < |locks|
  {
    locks[i].spinLock + size <= locks[j].spinLock || locks[j].spinLock + size <= locks[i].spinLock
  }

  /** Every lock lies inside one of the areas. */
  ghost predicate InAreas(locks: seq<MsrLock>, areas: seq<Area>, size: nat) {
    forall i {:trigger locks[i]} :: 0 <= i < |locks| ==> Housed(areas, locks[i].spinLock, size)
  }

  ghost predicate Housed(areas: seq<Area>, address: nat, size: nat) {
    exists k :: 0 <= k < |areas| && Inside(areas[k], address, size)
  }

  /** The MSRs of the first n entries are different. */
  ghost predicate DistinctMsrs(locks: seq<MsrLock>, n: nat)
    requires n <= |locks|
  {
    forall i, j {:trigger MsrsDiffer(locks, i, j)} :: 0 <= i < j < n ==> MsrsDiffer(locks, i, j)
  }

  predicate MsrsDiffer(locks: seq<MsrLock>, i: nat, j: nat)
    requires i < |locks| && j < |locks|
  {
    locks[i].msrIndex != locks[j].msrIndex
  }

  lemma CarveFits(base: nat, size: nat, count: nat, length: nat, i: nat, j: nat)
    requires size > 0 && count * size <= length && i < j <= count
    ensures base + i * size + size <= base + j * size && base + j * size <= base + length
  {
    MulMono(i + 1, j, size);
    MulMono(j, count, size);
    assert (i + 1) * size == i * size + size;
  }

  lemma {:induction false} MulMono(a: nat, b: nat, size: nat)
    requires a <= b
    ensures a * size <= b * size
  {
    assert b * size == a * size + (b - a) * size;
  }

  /** Locks carved from an area of their own neither overlap nor leave it. */
  lemma CarvedWell(locks: seq<MsrLock>, areas: seq<Area>, area: Area, size: nat, count: nat)
    requires size > 0 && count * size <= area.length
    requires Disjoint(locks, size) && InAreas(locks, areas, size)
    requires forall k {:trigger areas[k]} :: 0 <= k < |areas| ==> Apart(areas[k], area)
    ensures Disjoint(locks + Carve(area.base, size, count), size)
      && InAreas(locks + Carve(area.base, size, count), areas + [area], size)
  {
    var more := Carve(area.base, size, count);
    var all := locks + more;
    var more_areas := areas + [area];
    forall i | 0 <= i < |all| ensures Housed(more_areas, all[i].spinLock, size) {
      if i < |locks| {
        assert Housed(areas, locks[i].spinLock, size);
        var k :| 0 <= k < |areas| && Inside(areas[k], locks[i].spinLock, size);
        assert more_areas[k] == areas[k];
      } else {
        CarvedAt(area, size, count, i - |locks|);
        assert more_areas[|areas|] == area;
      }
    }
    forall i, j | 0 <= i < j < |all| ensures LocksApart(all, size, i, j) {
      if j < |locks| {
        assert LocksApart(locks, size, i, j);
      } else {
        CarvedAt(area, size, count, j - |locks|);
        if i < |locks| {
          assert Housed(areas, locks[i].spinLock, size);
          var k :| 0 <= k < |areas| && Inside(areas[k], locks[i].spinLock, size);
          assert Apart(areas[k], area);
        } else {
          CarveFits(area.base, size, count, area.length, i - |locks|, j - |locks|);
        }
      }
    }
  }

  lemma CarvedAt(area: Area, size: nat, count: nat, i: nat)
    requires size > 0 && count * size <= area.length && i < count
    ensures Inside(area, Carve(area.base, size, count)[i].spinLock, size)
  {
    CarveFits(area.base, size, count, area.length, i, i + 1);
    MulMono(i + 1, count, size);
  }

  // ---------------------------------------------------------------- the table

  /** A register table entry, as far as the locks are concerned. */
  datatype RegisterEntry = RegisterEntry(msr: bool, index: nat, validBitLength: nat)

  /** CPU_REGISTER_TABLE: its entries, and whether AllocatedSize is non-zero. */
  datatype RegisterTable = RegisterTable(copied: bool, entries: seq<RegisterEntry>)

  /** An entry that writes a bit field of an MSR, and so takes the MSR's lock. */
  predicate NeedsLock(e: RegisterEntry) { e.msr && e.validBitLength < 64 }

  class MsrLockTable {
    /** mSemaphoreSize, the area that SemaphoreMsr starts with, and its AvailableCounter. */
    const semaphoreSize: nat
    const first: Area
    const available: nat

    /** mMsrSpinLocks, empty while it is NULL, and mMsrCount. */
    var locks: seq<MsrLock>
    var count: nat

    /** Pages that AllocatePages gives next. */
    var pages: seq<nat>

    /** The areas in use. */
    ghost var areas: seq<Area>

    /** Nothing is allocated yet. */
    constructor (semaphoreSize: nat, first: Area, available: nat, pages: seq<nat>)
      requires 0 < semaphoreSize <= SIZE_4KB && available > 0 && available * semaphoreSize <= first.length
      requires AreaApart(first, pages, 0) && PagesApart(pages)
      ensures Valid() && locks == [] && this.pages == pages
    {
      this.semaphoreSize, this.first, this.available, this.pages := semaphoreSize, first, available, pages;
      this.locks, this.count, this.areas := [], 0, [];
    }

    ghost predicate Valid()
      reads this
    {
      && 0 < semaphoreSize <= SIZE_4KB && available > 0 && available * semaphoreSize <= first.length
      && (locks == [] ==> count == 0 && areas == []) && (locks != [] ==> count < |locks|)
      && Disjoint(locks, semaphoreSize) && InAreas(locks, areas, semaphoreSize) && DistinctMsrs(locks, count)
      && Separate(areas, pages) && AreaApart(first, pages, 0) && PagesApart(pages)
    }

    /** How many more MSRs can be given locks: those free but for the one that always is, and pages of them. */
    ghost function Capacity(): nat
      reads this
      requires Valid()
    {
      (if locks == [] then available else |locks| - count) - 1 + Slots(|pages|, SIZE_4KB / semaphoreSize)
    }

    /** GetMsrSpinLockByIndex. */
    method GetMsrSpinLockByIndex(msr: nat) returns (lock: Option<nat>)
      requires count <= |locks|
      ensures lock == LockOf(locks, count, msr)
      ensures lock.None? <==> forall i :: 0 <= i < count ==> locks[i].msrIndex != msr
      ensures forall i {:trigger FirstEntry(locks, count, msr, i)} :: FirstEntry(locks, count, msr, i) ==>
        lock == Some(locks[i].spinLock)
    {
      var index := 0;
      while index < count
        invariant index <= count && Position(locks, count, msr, 0) == Position(locks, count, msr, index)
        invariant forall i :: 0 <= i < index ==> locks[i].msrIndex != msr
      {
        if msr == locks[index].msrIndex {
          return Some(locks[index].spinLock);
        }
        index := index + 1;
      }
      return None;
    }

    /** The loop that carves an area into locks. */
    method CarveLocks(base: nat, n: nat) returns (r: seq<MsrLock>)
      ensures r == Carve(base, semaphoreSize, n)
    {
      r := [];
      var index := 0;
      while index < n
        invariant index <= n && r == Carve(base, semaphoreSize, index)
      {
        r := r + [MsrLock(UNUSED, base + index * semaphoreSize)];
        index := index + 1;
      }
    }

    /** InitMsrSpinLockByIndex: the MSR has a lock, every MSR that had one keeps it, and a slot stays free. */
    method InitMsrSpinLockByIndex(msr: nat)
      requires Valid() && (msr !in Known(locks, count) ==> Capacity() > 0)
      modifies this
      ensures Valid() && locks != [] && Keeps(old(locks), old(count), locks, count)
      ensures LockOf(locks, count, msr).Some? && Known(locks, count) == old(Known(locks, count)) + {msr}
      ensures Capacity() == old(Capacity()) - if msr in old(Known(locks, count)) then 0 else 1
    {
      KnownIs(locks, count, msr);
      if locks == [] {
        Start();
      }
      var lock := GetMsrSpinLockByIndex(msr);
      if lock.None? {
        Enter(msr);
      }
    }

    /** A new MSR takes the first free lock. */
    method Enter(msr: nat)
      requires Valid() && locks != [] && Capacity() > 0 && LockOf(locks, count, msr).None?
      modifies this
      ensures Valid() && locks != [] && Capacity() == old(Capacity()) - 1
      ensures LockOf(locks, count, msr).Some? && Keeps(old(locks), old(count), locks, count)
      ensures Known(locks, count) == old(Known(locks, count)) + {msr}
    {
      Take(msr);
      if count == |locks| {
        ghost var was := locks;
        Grow();
        GrownKeeps(old(locks), old(count), was, locks, count, msr);
        assert forall i :: 0 <= i < count ==> locks[i] == locks[..count][i];
      }
    }

    method Take(msr: nat)
      requires count < |locks| && LockOf(locks, count, msr).None?
      requires Disjoint(locks, semaphoreSize) && InAreas(locks, areas, semaphoreSize) && DistinctMsrs(locks, count)
      modifies this`locks, this`count
      ensures |locks| == |old(locks)| && count == old(count) + 1
      ensures Disjoint(locks, semaphoreSize) && InAreas(locks, areas, semaphoreSize) && DistinctMsrs(locks, count)
      ensures LockOf(locks, count, msr).Some? && Keeps(old(locks), old(count), locks, count)
      ensures Known(locks, count) == old(Known(locks, count)) + {msr}
    {
      AddedWell(locks, count, msr, areas, semaphoreSize);
      locks := locks[count := locks[count].(msrIndex := msr)];
      count := count + 1;
      KnownMore(old(locks), old(count), locks, msr);
    }

    /** The first call takes the area set aside. */
    method Start()
      requires Valid() && locks == []
      modifies this`locks, this`areas
      ensures Valid() && locks != [] && Capacity() == old(Capacity())
    {
      CarvedWell([], [], first, semaphoreSize, available);
      locks := CarveLocks(first.base, available);
      assert [] + locks == locks && [] + [first] == [first];
      areas := [first];
    }

    /** A full table gets a page of new locks; the old ones stay where they are. */
    method Grow()
      requires 0 < semaphoreSize <= SIZE_4KB && count == |locks| > 0 && |pages| > 0
      requires Disjoint(locks, semaphoreSize) && InAreas(locks, areas, semaphoreSize) && DistinctMsrs(locks, count)
      requires Separate(areas, pages) && AreaApart(first, pages, 0) && PagesApart(pages)
      requires available > 0 && available * semaphoreSize <= first.length
      modifies this`locks, this`areas, this`pages
      ensures Valid() && count == old(count) < |locks| && |pages| == |old(pages)| - 1 && locks[..count] == old(locks)
      ensures |locks| == |old(locks)| + SIZE_4KB / semaphoreSize
    {
      var page := pages[0];
      var n := SIZE_4KB / semaphoreSize;
      ghost var area := Area(page, SIZE_4KB);
      forall k {:trigger areas[k]} | 0 <= k < |areas| ensures Apart(areas[k], area) {
        assert AreaApart(areas[k], pages, 0) && pages[0] == page;
      }
      CarvedWell(locks, areas, area, semaphoreSize, n);
      PagesLeft(areas, pages, first);
      var more := CarveLocks(page, n);
      forall i, j | 0 <= i < j < count ensures MsrsDiffer(locks + more, i, j) {
        assert MsrsDiffer(locks, i, j);
      }
      locks := locks + more;
      areas := areas + [area];
      pages := pages[1..];
    }

    /** CopyRegisterTable, as far as the locks go: every bit-field MSR entry of a copied table has its lock, no other
        MSR is given one, and memory is needed for the new ones only. */
    method CopyRegisterTable(tables: seq<RegisterTable>)
      requires Valid() && |WantedIn(tables) - Known(locks, count)| <= Capacity()
      modifies this
      ensures Valid() && Keeps(old(locks), old(count), locks, count)
      ensures Known(locks, count) == old(Known(locks, count)) + WantedIn(tables)
      ensures Capacity() == old(Capacity()) - |WantedIn(tables) - old(Known(locks, count))|
      ensures Served(tables, locks, count) && GivenExactly(tables, old(locks), old(count), locks, count)
    {
      ghost var known, all, done := Known(locks, count), WantedIn(tables), {};
      var index := 0;
      assert done - known == {} && known + done == known;
      while index < |tables|
        invariant index <= |tables| && Valid() && Keeps(old(locks), old(count), locks, count)
        invariant done == WantedIn(tables[..index]) && Known(locks, count) == known + done
        invariant Capacity() + |done - known| == old(Capacity())
      {
        ghost var was, n := locks, count;
        WantedMore(tables, index);
        if tables[index].copied {
          done := CopyTable(tables[index].entries, known, done, all);
          KeepsOn(old(locks), old(count), was, n, locks, count);
        }
        index := index + 1;
      }
      assert tables[..|tables|] == tables;
      AllServed(tables, locks, count);
      AllGiven(tables, old(locks), old(count), locks, count);
    }

    /** The loop over one register table.  `known` are the MSRs that had locks at first, `done` those given locks since,
        and `all` those to be given locks in the end. */
    method CopyTable(entries: seq<RegisterEntry>, ghost known: set<nat>, ghost done: set<nat>, ghost all: set<nat>)
      returns (ghost done': set<nat>)
      requires Valid() && Known(locks, count) == known + done && done + WantedBy(entries) <= all
      requires |all - known| <= Capacity() + |done - known|
      modifies this
      ensures Valid() && Keeps(old(locks), old(count), locks, count)
      ensures done' == done + WantedBy(entries) && Known(locks, count) == known + done'
      ensures Capacity() + |done' - known| == old(Capacity()) + |done - known|
    {
      done' := done;
      var index := 0;
      while index < |entries|
        invariant index <= |entries| && Valid() && Keeps(old(locks), old(count), locks, count)
        invariant done' == done + WantedBy(entries[..index]) && Known(locks, count) == known + done'
        invariant Capacity() + |done' - known| == old(Capacity()) + |done - known|
      {
        ghost var was, n := locks, count;
        EntryMore(entries, index, done, all);
        if NeedsLock(entries[index]) {
          done' := CopyEntry(entries[index].index, known, done', all);
          KeepsOn(old(locks), old(count), was, n, locks, count);
        }
        index := index + 1;
      }
      assert entries[..index] == entries;
    }

    /** A lock for one entry. */
    method CopyEntry(msr: nat, ghost known: set<nat>, ghost done: set<nat>, ghost all: set<nat>)
      returns (ghost done': set<nat>)
      requires Valid() && Known(locks, count) == known + done && done + {msr} <= all
      requires |all - known| <= Capacity() + |done - known|
      modifies this
      ensures Valid() && Keeps(old(locks), old(count), locks, count)
      ensures done' == done + {msr} && Known(locks, count) == known + done'
      ensures Capacity() + |done' - known| == old(Capacity()) + |done - known|
    {
      OneMore(known, done, all, msr);
      InitMsrSpinLockByIndex(msr);
      done' := done + {msr};
    }
  }

  /** Locks in p pages with n locks each. */
  ghost function Slots(p: nat, n: nat): nat { if p == 0 then 0 else Slots(p - 1, n) + n }

  /** The MSRs of the first n entries. */
  ghost function Known(locks: seq<MsrLock>, n: nat): set<nat>
    requires n <= |locks|
  {
    set i | 0 <= i < n :: locks[i].msrIndex
  }

  lemma KnownIs(locks: seq<MsrLock>, n: nat, msr: nat)
    requires n <= |locks|
    ensures msr in Known(locks, n) <==> LockOf(locks, n, msr).Some?
  {
    var k := Position(locks, n, msr, 0);
    if k < n {
      assert locks[k].msrIndex in Known(locks, n);
    }
  }

  lemma KnownMore(was: seq<MsrLock>, n: nat, now: seq<MsrLock>, msr: nat)
    requires n < |was| == |now| && now == was[n := was[n].(msrIndex := msr)]
    ensures Known(now, n + 1) == Known(was, n) + {msr}
  {
    forall m ensures m in Known(now, n + 1) <==> m in Known(was, n) + {msr} {
      if m in Known(was, n) {
        var i :| 0 <= i < n && was[i].msrIndex == m;
        assert now[i].msrIndex == m;
      }
      assert now[n].msrIndex == msr;
    }
  }

  /** The MSRs that the entries of one table, and of all copied tables, write bit fields of. */
  ghost function WantedBy(entries: seq<RegisterEntry>): set<nat> {
    set e | e in entries && NeedsLock(e) :: e.index
  }

  ghost function WantedIn(tables: seq<RegisterTable>): set<nat> {
    if |tables| == 0 then {}
    else
      var last := tables[|tables| - 1];
      WantedIn(tables[..|tables| - 1]) + if last.copied then WantedBy(last.entries) else {}
  }

  lemma {:induction false} WantedMore(tables: seq<RegisterTable>, k: nat)
    requires k < |tables|
    ensures tables[k].copied ==> WantedIn(tables[..k + 1]) == WantedIn(tables[..k]) + WantedBy(tables[k].entries)
    ensures tables[k].copied ==> WantedIn(tables[..k]) + WantedBy(tables[k].entries) <= WantedIn(tables)
    ensures !tables[k].copied ==> WantedIn(tables[..k + 1]) == WantedIn(tables[..k])
    ensures WantedIn(tables[..k + 1]) <= WantedIn(tables)
    decreases |tables| - k
  {
    assert tables[..k + 1][..k] == tables[..k];
    if k + 1 < |tables| {
      WantedMore(tables, k + 1);
    } else {
      assert tables[..k + 1] == tables;
    }
  }

  lemma WantedHolds(tables: seq<RegisterTable>, t: nat, e: nat)
    requires t < |tables| && tables[t].copied && e < |tables[t].entries| && NeedsLock(tables[t].entries[e])
    ensures tables[t].entries[e].index in WantedIn(tables)
  {
    assert tables[t].entries[e].index in WantedBy(tables[t].entries);
    WantedMore(tables, t);
  }

  /** Every bit-field MSR entry of a copied table finds its lock. */
  ghost predicate Served(tables: seq<RegisterTable>, locks: seq<MsrLock>, n: nat)
    requires n <= |locks|
  {
    forall t, e {:trigger tables[t].entries[e]} ::
      0 <= t < |tables| && tables[t].copied && 0 <= e < |tables[t].entries|
        && tables[t].entries[e].msr && tables[t].entries[e].validBitLength < 64 ==>
        LockOf(locks, n, tables[t].entries[e].index).Some?
  }

  /** An MSR has a lock if it had one before, or if some copied table has an entry of type MSR for it that writes fewer
      than its 64 bits; and no other has. */
  ghost predicate GivenExactly(tables: seq<RegisterTable>, was: seq<MsrLock>, m: nat, now: seq<MsrLock>, n: nat)
    requires m <= |was| && n <= |now|
  {
    forall msr: nat :: HasLock(now, n, msr) <==> HasLock(was, m, msr) || BitFieldIn(tables, msr)
  }

  ghost predicate HasLock(locks: seq<MsrLock>, n: nat, msr: nat)
    requires n <= |locks|
  {
    exists i :: 0 <= i < n && locks[i].msrIndex == msr
  }

  ghost predicate BitFieldIn(tables: seq<RegisterTable>, msr: nat) {
    exists t, e :: BitFieldAt(tables, t, e, msr)
  }

  ghost predicate BitFieldAt(tables: seq<RegisterTable>, t: int, e: int, msr: nat) {
    && 0 <= t < |tables| && tables[t].copied && 0 <= e < |tables[t].entries|
    && tables[t].entries[e].msr && tables[t].entries[e].validBitLength < 64 && tables[t].entries[e].index == msr
  }

  lemma {:induction false} WantedIs(tables: seq<RegisterTable>, msr: nat)
    ensures msr in WantedIn(tables) <==> BitFieldIn(tables, msr)
  {
    if |tables| > 0 {
      var front, last := tables[..|tables| - 1], tables[|tables| - 1];
      WantedIs(front, msr);
      if BitFieldIn(tables, msr) {
        var t, e :| BitFieldAt(tables, t, e, msr);
        WantedHolds(tables, t, e);
      }
      if msr in WantedIn(tables) {
        if last.copied && msr in WantedBy(last.entries) {
          var e :| e in last.entries && NeedsLock(e) && e.index == msr;
          var k :| 0 <= k < |last.entries| && last.entries[k] == e;
          assert BitFieldAt(tables, |tables| - 1, k, msr);
        } else {
          var t, e :| BitFieldAt(front, t, e, msr);
          assert BitFieldAt(tables, t, e, msr);
        }
      }
    }
  }

  lemma AllGiven(tables: seq<RegisterTable>, was: seq<MsrLock>, m: nat, now: seq<MsrLock>, n: nat)
    requires m <= |was| && n <= |now| && Known(now, n) == Known(was, m) + WantedIn(tables)
    ensures GivenExactly(tables, was, m, now, n)
  {
    forall msr: nat ensures HasLock(now, n, msr) <==> HasLock(was, m, msr) || BitFieldIn(tables, msr) {
      WantedIs(tables, msr);
      assert msr in Known(now, n) <==> HasLock(now, n, msr);
      assert msr in Known(was, m) <==> HasLock(was, m, msr);
    }
  }

  lemma AllServed(tables: seq<RegisterTable>, locks: seq<MsrLock>, n: nat)
    requires n <= |locks| && WantedIn(tables) <= Known(locks, n)
    ensures Served(tables, locks, n)
  {
    forall t, e {:trigger tables[t].entries[e]} |
      0 <= t < |tables| && tables[t].copied && 0 <= e < |tables[t].entries| && NeedsLock(tables[t].entries[e])
      ensures LockOf(locks, n, tables[t].entries[e].index).Some?
    {
      WantedHolds(tables, t, e);
      KnownIs(locks, n, tables[t].entries[e].index);
    }
  }

  lemma EntryMore(entries: seq<RegisterEntry>, k: nat, done: set<nat>, all: set<nat>)
    requires k < |entries| && done + WantedBy(entries) <= all
    ensures NeedsLock(entries[k]) ==>
      && done + WantedBy(entries[..k + 1]) == done + WantedBy(entries[..k]) + {entries[k].index}
      && done + WantedBy(entries[..k]) + {entries[k].index} <= all
    ensures !NeedsLock(entries[k]) ==> WantedBy(entries[..k + 1]) == WantedBy(entries[..k])
  {
    assert entries[..k + 1] == entries[..k] + [entries[k]];
    forall e | e in entries[..k] ensures e in entries {
    }
  }

  lemma OneMore(known: set<nat>, done: set<nat>, all: set<nat>, msr: nat)
    requires done + {msr} <= all
    ensures |(done + {msr}) - known| == |done - known| + (if msr in known + done then 0 else 1)
    ensures |(done + {msr}) - known| <= |all - known|
  {
    CardLess((done + {msr}) - known, all - known);
    if msr in known + done {
      assert (done + {msr}) - known == done - known;
    } else {
      assert (done + {msr}) - known == (done - known) + {msr};
    }
  }

  lemma {:induction false} CardLess(a: set<nat>, b: set<nat>)
    requires a <= b
    ensures |a| <= |b|
    decreases |a|
  {
    if x :| x in a {
      CardLess(a - {x}, b - {x});
    }
  }

  /** Every MSR that had a lock still has the same one. */
  ghost predicate Keeps(was: seq<MsrLock>, n: nat, now: seq<MsrLock>, m: nat) {
    n <= |was| && m <= |now| && forall msr: nat :: LockOf(was, n, msr).Some? ==>
      LockOf(now, m, msr) == LockOf(was, n, msr)
  }

  lemma KeepsOn(a: seq<MsrLock>, k: nat, b: seq<MsrLock>, l: nat, c: seq<MsrLock>, m: nat)
    requires Keeps(a, k, b, l) && Keeps(b, l, c, m)
    ensures Keeps(a, k, c, m)
  {
  }

  ghost predicate Separate(areas: seq<Area>, pages: seq<nat>) {
    forall k {:trigger areas[k]} :: 0 <= k < |areas| ==> AreaApart(areas[k], pages, 0)
  }

  lemma PagesLeft(areas: seq<Area>, pages: seq<nat>, first: Area)
    requires Separate(areas, pages) && AreaApart(first, pages, 0) && PagesApart(pages) && |pages| > 0
    ensures Separate(areas + [Area(pages[0], SIZE_4KB)], pages[1..]) && AreaApart(first, pages[1..], 0)
      && PagesApart(pages[1..])
  {
    var all, rest := areas + [Area(pages[0], SIZE_4KB)], pages[1..];
    forall k | 0 <= k < |all| ensures AreaApart(all[k], rest, 0) {
      forall j | 0 <= j < |rest| ensures Apart(all[k], Area(rest[j], SIZE_4KB)) {
        assert rest[j] == pages[j + 1];
        if k < |areas| { assert AreaApart(areas[k], pages, 0); }
      }
    }
    forall j | 0 <= j < |rest| ensures Apart(first, Area(rest[j], SIZE_4KB)) { assert rest[j] == pages[j + 1]; }
  }

  /** A lock looked up is the same one in a longer table. */
  lemma {:induction false} PositionSame(a: seq<MsrLock>, n: nat, b: seq<MsrLock>, m: nat, msr: nat, k: nat)
    requires k <= n <= |a| && n <= m <= |b| && forall i :: 0 <= i < n ==> a[i] == b[i]
    ensures Position(a, n, msr, k) < n ==> Position(b, m, msr, k) == Position(a, n, msr, k)
    decreases n - k
  {
    if k < n && a[k].msrIndex != msr {
      PositionSame(a, n, b, m, msr, k + 1);
    }
  }

  lemma LongerKeeps(a: seq<MsrLock>, n: nat, b: seq<MsrLock>, m: nat)
    requires n <= |a| && n <= m <= |b| && forall i :: 0 <= i < n ==> a[i] == b[i]
    ensures Keeps(a, n, b, m)
  {
    forall msr: nat ensures LockOf(a, n, msr).Some? ==> LockOf(b, m, msr) == LockOf(a, n, msr) {
      PositionSame(a, n, b, m, msr, 0);
    }
  }

  lemma GrownKeeps(a: seq<MsrLock>, n: nat, was: seq<MsrLock>, now: seq<MsrLock>, m: nat, msr: nat)
    requires m == |was| <= |now| && now[..m] == was && Keeps(a, n, was, m) && LockOf(was, m, msr).Some?
    ensures Keeps(a, n, now, m) && LockOf(now, m, msr).Some?
  {
    assert forall i :: 0 <= i < m ==> was[i] == now[..m][i];
    LongerKeeps(was, m, now, m);
    KeepsOn(a, n, was, m, now, m);
  }

  /** Giving the first free lock to a new MSR. */
  lemma AddedWell(locks: seq<MsrLock>, n: nat, msr: nat, areas: seq<Area>, size: nat)
    requires n < |locks| && LockOf(locks, n, msr).None?
    requires Disjoint(locks, size) && InAreas(locks, areas, size) && DistinctMsrs(locks, n)
    ensures var now := locks[n := locks[n].(msrIndex := msr)];
      && Disjoint(now, size) && InAreas(now, areas, size) && DistinctMsrs(now, n + 1)
      && Keeps(locks, n, now, n + 1) && LockOf(now, n + 1, msr).Some?
  {
    var now := locks[n := locks[n].(msrIndex := msr)];
    LongerKeeps(locks, n, now, n + 1);
    assert now[n].msrIndex == msr;
    forall i, j | 0 <= i < j < |now| ensures LocksApart(now, size, i, j) {
      assert LocksApart(locks, size, i, j);
    }
    forall i | 0 <= i < |now| ensures Housed(areas, now[i].spinLock, size) {
      assert Housed(areas, locks[i].spinLock, size);
    }
    forall i, j | 0 <= i < j < n + 1 ensures MsrsDiffer(now, i, j) {
      if j < n { assert MsrsDiffer(locks, i, j); }
    }
  }

  ghost predicate AreaApart(a: Area, pages: seq<nat>, from: nat) {
    forall k {:trigger pages[k]} :: from <= k < |pages| ==> Apart(a, Area(pages[k], SIZE_4KB))
  }

  ghost predicate PagesApart(pages: seq<nat>) {
    forall j, k {:trigger pages[j], pages[k]} :: 0 <= j < k < |pages| ==>
      Apart(Area(pages[j], SIZE_4KB), Area(pages[k], SIZE_4KB))
  }
}
