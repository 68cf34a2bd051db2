/** The SMM profile's open-and-restore cycle below 4GB.  A CPU that the page table denies an access waits for a lock,
    records the entry as it finds it then, and opens it; its single-step trap puts the recorded values back, without
    the lock.  Denials, the single stores of the handlers, and traps of all CPUs interleave. */
module ProfileTrap {
  import opened Common

  const MAX_PF_ENTRY_COUNT: nat := 10

  /** A leaf entry's place: in a page directory, or in the page table below directory entry i. */
  datatype Slot = Pd(i: nat) | Pt(i: nat, k: nat)

  datatype Entry = Entry(p: bool, rw: bool, nx: bool, ps: bool, addr: nat)

  type Table = map<Slot, Entry>

  datatype AccessKind = Read | Write | Fetch

  /** An element of mLastPFEntryPointer and mLastPFEntryValue. */
  datatype Record = Record(slot: Slot, value: Entry)

  /** The parts in which the handler sets the new entry: its address, PS, RW and P, and NX for a fetch. */
  datatype Part = Address | Size | Allow | Execute

  /** What a CPU is doing.  Storing is inside the lock; all parts but the first read the entry before they store it,
      and `held` is what was read. */
  datatype Phase =
    | Idle
    | Denied(address: nat, kind: AccessKind)
    | Storing(slot: Slot, fetch: bool, part: Part, held: Option<Entry>)
    | Trapping(next: nat)

  /** A CPU's mPFEntryCount, its records, and what it is doing. */
  datatype Cpu = Cpu(count: nat, records: seq<Record>, phase: Phase)

  /** The page table and the CPUs; then history: the slots served by a CPU that had no record left. */
  datatype State = State(table: Table, cpu: seq<Cpu>, missed: set<Slot>)

  datatype Event = Raise(c: nat, address: nat, kind: AccessKind) | Serve(c: nat) | Trap(c: nat)

  /** The leaf that maps an address below 4GB. */
  function SlotOf(t: Table, address: nat): Slot {
    var i := address / SIZE_2MB;
    if Pd(i) in t && t[Pd(i)].ps then Pd(i) else Pt(i, address / SIZE_4KB % 512)
  }

  /** First address that a slot maps. */
  function BaseOf(s: Slot): nat {
    match s
    case Pd(i) => i * SIZE_2MB
    case Pt(i, k) => i * SIZE_2MB + k * SIZE_4KB
  }

  /** What the fault handler leaves: present, writable and executable. */
  function Open(s: Slot): Entry { Entry(true, true, false, s.Pd?, BaseOf(s)) }

  predicate Denies(e: Entry, kind: AccessKind) {
    !e.p || (kind == Write && !e.rw) || (kind == Fetch && e.nx)
  }

  // ---------------------------------------------------------------- steps

  ghost predicate Sized(s: State) {
    forall c {:trigger s.cpu[c]} :: 0 <= c < |s.cpu| ==>
      |s.cpu[c].records| == MAX_PF_ENTRY_COUNT && s.cpu[c].count <= MAX_PF_ENTRY_COUNT
  }

  function Doing(s: State, c: nat): Phase { if c < |s.cpu| then s.cpu[c].phase else Idle }

  function Become(s: State, c: nat, phase: Phase): State
    requires c < |s.cpu|
  {
    s.(cpu := s.cpu[c := s.cpu[c].(phase := phase)])
  }

  /** mPFLock is free. */
  ghost predicate LockFree(s: State) { forall c: nat {:trigger Doing(s, c)} :: !Doing(s, c).Storing? }

  /** RestorePageTableBelow4G up to its first store: record the entry as it is, if there is room. */
  function Take(s: State, c: nat, slot: Slot, fetch: bool): State
    requires c < |s.cpu| && slot in s.table
    requires s.cpu[c].count < MAX_PF_ENTRY_COUNT ==> s.cpu[c].count < |s.cpu[c].records|
  {
    var v := s.cpu[c];
    var phase := Storing(slot, fetch, Address, None);
    if v.count < MAX_PF_ENTRY_COUNT then
      var records := v.records[v.count := Record(slot, s.table[slot])];
      s.(cpu := s.cpu[c := Cpu(v.count + 1, records, phase)])
    else Become(s, c, phase).(missed := s.missed + {slot})
  }

  /** What the handler makes of the entry it has read. */
  function Altered(part: Part, slot: Slot, e: Entry): Entry {
    match part
    case Address => Entry(false, false, false, false, BaseOf(slot))
    case Size => e.(ps := true)
    case Allow => e.(p := true, rw := true)
    case Execute => e.(nx := false)
  }

  /** What follows a part. */
  function After(part: Part, slot: Slot, fetch: bool): Phase {
    match part
    case Address => Storing(slot, fetch, if slot.Pd? then Size else Allow, None)
    case Size => Storing(slot, fetch, Allow, None)
    case Allow => if fetch then Storing(slot, fetch, Execute, None) else Idle
    case Execute => Idle
  }

  /** The rest of RestorePageTableBelow4G: the next read or store of the entry. */
  function Store(s: State, c: nat): State
    requires Doing(s, c).Storing?
  {
    var w := s.cpu[c].phase;
    if w.part == Address || w.held.Some? then
      var e := Altered(w.part, w.slot, if w.held.Some? then w.held.value else Open(w.slot));
      Become(s, c, After(w.part, w.slot, w.fetch)).(table := s.table[w.slot := e])
    else if w.slot in s.table then Become(s, c, w.(held := Some(s.table[w.slot])))
    else s
  }

  /** One turn of DebugExceptionHandler's loop, its end, or its start. */
  function TrapStep(s: State, c: nat): State
    requires c < |s.cpu| && s.cpu[c].count <= |s.cpu[c].records|
  {
    var v := s.cpu[c];
    match v.phase
    case Idle => Become(s, c, Trapping(0))
    case Trapping(k) =>
      if k < v.count then Become(s, c, Trapping(k + 1)).(table := s.table[v.records[k].slot := v.records[k].value])
      else s.(cpu := s.cpu[c := v.(count := 0, phase := Idle)])
    case _ => s
  }

  /** The leaf as it is now denies the access; `closed` says which leaf that is, for no step changes the layout. */
  ghost predicate DeniedNow(closed: Table, s: State, address: nat, kind: AccessKind) {
    var slot := SlotOf(closed, address);
    slot in s.table && Denies(s.table[slot], kind)
  }

  /** CPU c is to be served next: the lock is free and the page tables down to its leaf are there. */
  ghost predicate Served(s: State, c: nat) {
    Doing(s, c).Denied? && LockFree(s) && SlotOf(s.table, s.cpu[c].phase.address) in s.table
  }

  /** One event; one that cannot happen changes nothing. */
  ghost function Step(closed: Table, s: State, e: Event): State
    requires Sized(s)
  {
    if e.c >= |s.cpu| then s
    else
      match e
      case Raise(c, address, kind) =>
        if s.cpu[c].phase.Idle? && DeniedNow(closed, s, address, kind) then Become(s, c, Denied(address, kind)) else s
      case Serve(c) =>
        if Served(s, c) then Take(s, c, SlotOf(s.table, s.cpu[c].phase.address), s.cpu[c].phase.kind == Fetch)
        else if s.cpu[c].phase.Storing? then Store(s, c)
        else s
      case Trap(c) => TrapStep(s, c)
  }

  lemma StepSized(closed: Table, s: State, e: Event)
    requires Sized(s)
    ensures Sized(Step(closed, s, e))
  {
  }

  /** The state after a history of events. */
  ghost function Then(closed: Table, s: State, es: seq<Event>): (r: State)
    requires Sized(s)
    ensures Sized(r)
  {
    if |es| == 0 then s
    else
      var last := |es| - 1;
      StepSized(closed, Then(closed, s, es[..last]), es[last]);
      Step(closed, Then(closed, s, es[..last]), es[last])
  }

  /** P holds at every event of a history, for the state it meets. */
  ghost predicate Always(P: (State, Event) -> bool, closed: Table, s: State, es: seq<Event>)
    requires Sized(s)
  {
    |es| == 0 || (
      var last := |es| - 1;
      Always(P, closed, s, es[..last]) && P(Then(closed, s, es[..last]), es[last]))
  }

  /** SmmProfile has just started: the table is closed, nothing is recorded. */
  ghost predicate Start(s: State, closed: Table) {
    && Sized(s) && s.table == closed && s.missed == {}
    && forall c {:trigger s.cpu[c]} :: 0 <= c < |s.cpu| ==> s.cpu[c].count == 0 && s.cpu[c].phase.Idle?
  }

  // ---------------------------------------------------------------- what a step does to a slot

  /** Record k of CPU c is still to be put back. */
  predicate Active(s: State, c: int, k: int) {
    && 0 <= c < |s.cpu| && 0 <= k < s.cpu[c].count && k < |s.cpu[c].records|
    && (s.cpu[c].phase.Trapping? ==> s.cpu[c].phase.next <= k)
  }

  /** Record k of CPU c is still to be put back, at slot x. */
  predicate Holds(s: State, c: int, k: int, x: Slot) { Active(s, c, k) && s.cpu[c].records[k].slot == x }

  ghost predicate Recorded(s: State, x: Slot) { exists c, k {:trigger Holds(s, c, k, x)} :: Holds(s, c, k, x) }

  /** The event is the service of a denied CPU at slot x. */
  ghost predicate Takes(s: State, e: Event, x: Slot) {
    e.Serve? && Served(s, e.c) && SlotOf(s.table, s.cpu[e.c].phase.address) == x
  }

  /** That CPU has no record left. */
  ghost predicate Overflows(s: State, e: Event, x: Slot) {
    Takes(s, e, x) && s.cpu[e.c].count >= MAX_PF_ENTRY_COUNT
  }

  /** The event is a store of the fault handler at slot x. */
  ghost predicate Stores(s: State, e: Event, x: Slot) {
    && e.Serve? && Doing(s, e.c).Storing? && Doing(s, e.c).slot == x
    && (Doing(s, e.c).part == Address || Doing(s, e.c).held.Some?)
  }

  /** The event puts record k of CPU c back. */
  predicate Restores(s: State, e: Event, c: int, k: int) {
    e.Trap? && e.c == c && Doing(s, e.c).Trapping? && Doing(s, e.c).next == k
  }

  /** The event puts a record of slot x back. */
  ghost predicate Puts(s: State, e: Event, x: Slot) {
    e.Trap? && Doing(s, e.c).Trapping? && Holds(s, e.c, Doing(s, e.c).next, x)
  }

  lemma HoldsAfter(closed: Table, s: State, e: Event, c: int, k: int, x: Slot)
    requires Sized(s)
    ensures Holds(Step(closed, s, e), c, k, x) <==>
      || (Holds(s, c, k, x) && !Restores(s, e, c, k))
      || (Takes(s, e, x) && c == e.c && k == s.cpu[c].count < MAX_PF_ENTRY_COUNT)
    ensures Holds(s, c, k, x) && Holds(Step(closed, s, e), c, k, x) ==>
      Step(closed, s, e).cpu[c].records[k] == s.cpu[c].records[k]
  {
  }

  lemma TableAfter(closed: Table, s: State, e: Event, x: Slot)
    requires Sized(s) && x in s.table
    ensures var s' := Step(closed, s, e);
      && x in s'.table
      && (Puts(s, e, x) ==> s'.table[x] == s.cpu[e.c].records[Doing(s, e.c).next].value)
      && (!Puts(s, e, x) && !Stores(s, e, x) ==> s'.table[x] == s.table[x])
      && (x in s'.missed <==> x in s.missed || Overflows(s, e, x))
      && s.missed <= s'.missed
  {
  }

  /** A CPU begins to store at slot x when it is served there, and nobody else does. */
  lemma StoringAfter(closed: Table, s: State, e: Event, c: nat)
    requires Sized(s) && Doing(Step(closed, s, e), c).Storing?
    ensures var x := Doing(Step(closed, s, e), c).slot;
      || (Takes(s, e, x) && c == e.c)
      || (Doing(s, c).Storing? && Doing(s, c).slot == x && Step(closed, s, e).cpu[c].count == s.cpu[c].count)
  {
  }

  // ---------------------------------------------------------------- one slot, over all histories

  /** At most one record of slot x is still to be put back, and it holds the closed value. */
  ghost predicate OneRecord(s: State, closed: Table, x: Slot) {
    && (forall c, k {:trigger Holds(s, c, k, x)} :: Holds(s, c, k, x) ==>
          x in closed && s.cpu[c].records[k].value == closed[x])
    && (forall c, k, d, l {:trigger Holds(s, c, k, x), Holds(s, d, l, x)} ::
          Holds(s, c, k, x) && Holds(s, d, l, x) ==> c == d && k == l)
  }

  /** A CPU that stores at slot x has recorded it, unless one found its records full there. */
  ghost predicate StoresRecorded(s: State, x: Slot) {
    forall c: nat {:trigger Doing(s, c)} :: Doing(s, c).Storing? && Doing(s, c).slot == x ==>
      x in s.missed || Holds(s, c, s.cpu[c].count - 1, x)
  }

  ghost predicate OneSlot(s: State, closed: Table, x: Slot) {
    && Sized(s) && x in s.table && x in closed && x !in s.missed && OneRecord(s, closed, x) && StoresRecorded(s, x)
    && (!Recorded(s, x) ==> s.table[x] == closed[x])
  }

  lemma StoresRecordedStep(closed: Table, s: State, e: Event, x: Slot)
    requires Sized(s) && StoresRecorded(s, x) && x in s.table
    ensures StoresRecorded(Step(closed, s, e), x)
  {
    var s' := Step(closed, s, e);
    TableAfter(closed, s, e, x);
    forall c: nat | Doing(s', c).Storing? && Doing(s', c).slot == x
      ensures x in s'.missed || Holds(s', c, s'.cpu[c].count - 1, x)
    {
      StoringAfter(closed, s, e, c);
      if Takes(s, e, x) && c == e.c {
        HoldsAfter(closed, s, e, c, s.cpu[c].count, x);
      } else {
        HoldsAfter(closed, s, e, c, s.cpu[c].count - 1, x);
      }
    }
  }

  lemma RecordedAfter(closed: Table, s: State, e: Event, x: Slot)
    requires Sized(s)
    ensures Recorded(s, x) && !Puts(s, e, x) ==> Recorded(Step(closed, s, e), x)
    ensures Recorded(Step(closed, s, e), x) ==> Recorded(s, x) || Takes(s, e, x)
  {
    var s' := Step(closed, s, e);
    if Recorded(s, x) {
      var c, k :| Holds(s, c, k, x);
      HoldsAfter(closed, s, e, c, k, x);
    }
    if Recorded(s', x) {
      var c, k :| Holds(s', c, k, x);
      HoldsAfter(closed, s, e, c, k, x);
    }
  }

  lemma OneRecordStep(closed: Table, s: State, e: Event, x: Slot)
    requires Sized(s) && x in s.table && x in closed && OneRecord(s, closed, x)
    requires Takes(s, e, x) && !Overflows(s, e, x) ==> !Recorded(s, x) && s.table[x] == closed[x]
    ensures OneRecord(Step(closed, s, e), closed, x)
  {
    var s' := Step(closed, s, e);
    forall c, k | Holds(s', c, k, x) ensures s'.cpu[c].records[k].value == closed[x] {
      HoldsAfter(closed, s, e, c, k, x);
      if !Holds(s, c, k, x) { TakenValue(closed, s, e, x); }
    }
    forall c, k, d, l | Holds(s', c, k, x) && Holds(s', d, l, x) ensures c == d && k == l {
      HoldsAfter(closed, s, e, c, k, x);
      HoldsAfter(closed, s, e, d, l, x);
    }
  }

  lemma TakenValue(closed: Table, s: State, e: Event, x: Slot)
    requires Sized(s) && Takes(s, e, x) && s.cpu[e.c].count < MAX_PF_ENTRY_COUNT
    ensures Step(closed, s, e).cpu[e.c].records[s.cpu[e.c].count] == Record(x, s.table[x])
  {
  }

  /** The step of the exact condition: a slot is never served while it is recorded. */
  lemma OneSlotStep(closed: Table, s: State, e: Event, x: Slot)
    requires OneSlot(s, closed, x) && !Overflows(s, e, x) && (Takes(s, e, x) ==> !Recorded(s, x))
    ensures OneSlot(Step(closed, s, e), closed, x)
  {
    var s' := Step(closed, s, e);
    StepSized(closed, s, e);
    OneRecordStep(closed, s, e, x);
    StoresRecordedStep(closed, s, e, x);
    TableAfter(closed, s, e, x);
    RecordedAfter(closed, s, e, x);
    if Stores(s, e, x) {
      assert Holds(s, e.c, s.cpu[e.c].count - 1, x);
    }
    if Takes(s, e, x) { HoldsAfter(closed, s, e, e.c, s.cpu[e.c].count, x); }
  }

  ghost predicate NotServedTwice(s: State, e: Event, x: Slot) { Takes(s, e, x) ==> !Recorded(s, x) }

  /** Nobody stores at slot x without a record before the history's last event has taken place. */
  lemma MissedBefore(closed: Table, s: State, es: seq<Event>, x: Slot)
    requires Sized(s) && |es| > 0 && x !in Then(closed, s, es).missed && x in Then(closed, s, es[..|es| - 1]).table
    ensures var before := Then(closed, s, es[..|es| - 1]);
      x !in before.missed && !Overflows(before, es[|es| - 1], x)
  {
    TableAfter(closed, Then(closed, s, es[..|es| - 1]), es[|es| - 1], x);
  }

  lemma {:induction false} KeysStay(closed: Table, s: State, es: seq<Event>, x: Slot)
    requires Sized(s) && x in s.table
    ensures x in Then(closed, s, es).table
  {
    if |es| > 0 {
      KeysStay(closed, s, es[..|es| - 1], x);
      TableAfter(closed, Then(closed, s, es[..|es| - 1]), es[|es| - 1], x);
    }
  }

  /** In every state of the history at most one record of slot x is to be put back, and it holds the closed value. */
  ghost predicate OneRecordThroughout(closed: Table, s: State, es: seq<Event>, x: Slot)
    requires Sized(s)
  {
    OneRecord(Then(closed, s, es), closed, x) && (|es| > 0 ==> OneRecordThroughout(closed, s, es[..|es| - 1], x))
  }

  /** Whatever the history, as long as no CPU at slot x finds its records full: every record of the slot is the only
      one and holds the closed value, at all times, if and only if no CPU is served at the slot while it is recorded. */
  lemma {:induction false} RecordedOnceIff(closed: Table, s: State, es: seq<Event>, x: Slot)
    requires Start(s, closed) && x in closed && x !in Then(closed, s, es).missed
    ensures OneRecordThroughout(closed, s, es, x)
       <==> Always((t: State, e: Event) => NotServedTwice(t, e, x), closed, s, es)
    ensures OneRecordThroughout(closed, s, es, x) ==> OneSlot(Then(closed, s, es), closed, x)
  {
    if |es| > 0 {
      var front, e := es[..|es| - 1], es[|es| - 1];
      var before := Then(closed, s, front);
      KeysStay(closed, s, front, x);
      MissedBefore(closed, s, es, x);
      RecordedOnceIff(closed, s, front, x);
      if OneRecordThroughout(closed, s, front, x) {
        if NotServedTwice(before, e, x) {
          OneSlotStep(closed, before, e, x);
        } else {
          ServedTwice(closed, before, e, x);
        }
      }
    } else {
      assert OneSlot(s, closed, x);
    }
  }

  /** A CPU that records slot x finds it closed, and recorded by nobody. */
  ghost predicate RecordedRight(closed: Table, s: State, e: Event, x: Slot) {
    Takes(s, e, x) && !Overflows(s, e, x) ==> !Recorded(s, x) && x in s.table && x in closed && s.table[x] == closed[x]
  }

  /** With full records as well: if and only if each CPU that records the slot finds it closed too. */
  lemma {:induction false} RecordedRightIff(closed: Table, s: State, es: seq<Event>, x: Slot)
    requires Start(s, closed) && x in closed
    ensures OneRecordThroughout(closed, s, es, x)
       <==> Always((t: State, e: Event) => RecordedRight(closed, t, e, x), closed, s, es)
  {
    if |es| > 0 {
      var front, e := es[..|es| - 1], es[|es| - 1];
      var before := Then(closed, s, front);
      KeysStay(closed, s, front, x);
      RecordedRightIff(closed, s, front, x);
      if OneRecordThroughout(closed, s, front, x) {
        if RecordedRight(closed, before, e, x) {
          OneRecordStep(closed, before, e, x);
        } else if Recorded(before, x) {
          ServedTwice(closed, before, e, x);
        } else {
          TakenValue(closed, before, e, x);
          HoldsAfter(closed, before, e, e.c, before.cpu[e.c].count, x);
        }
      }
    }
  }

  lemma ServedTwice(closed: Table, s: State, e: Event, x: Slot)
    requires Sized(s) && Takes(s, e, x) && Recorded(s, x) && !Overflows(s, e, x)
    ensures !OneRecord(Step(closed, s, e), closed, x)
  {
    var c, k :| Holds(s, c, k, x);
    HoldsAfter(closed, s, e, c, k, x);
    HoldsAfter(closed, s, e, e.c, s.cpu[e.c].count, x);
  }

  // ---------------------------------------------------------------- what is left at the end

  /** The last thing that has been done to a slot. */
  datatype Mark = Untouched | Stored | PutBack(value: Entry)

  ghost function MarkAfter(s: State, e: Event, x: Slot, mark: Mark): Mark {
    if Puts(s, e, x) then PutBack(s.cpu[e.c].records[Doing(s, e.c).next].value)
    else if Stores(s, e, x) then Stored
    else mark
  }

  ghost function LastMark(closed: Table, s: State, es: seq<Event>, x: Slot): Mark
    requires Sized(s)
  {
    if |es| == 0 then Untouched
    else
      var last := |es| - 1;
      MarkAfter(Then(closed, s, es[..last]), es[last], x, LastMark(closed, s, es[..last], x))
  }

  ghost predicate Marked(s: State, closed: Table, x: Slot, mark: Mark) {
    && Sized(s) && x in s.table && x in closed && StoresRecorded(s, x)
    && match mark
       case Untouched => s.table[x] == closed[x]
       case Stored => Recorded(s, x) || x in s.missed
       case PutBack(v) => s.table[x] == v
  }

  lemma MarkedStep(closed: Table, s: State, e: Event, x: Slot, mark: Mark)
    requires Marked(s, closed, x, mark)
    ensures Marked(Step(closed, s, e), closed, x, MarkAfter(s, e, x, mark))
  {
    StepSized(closed, s, e);
    StoresRecordedStep(closed, s, e, x);
    TableAfter(closed, s, e, x);
    RecordedAfter(closed, s, e, x);
    if Stores(s, e, x) {
      assert x in s.missed || Holds(s, e.c, s.cpu[e.c].count - 1, x);
    }
  }

  lemma {:induction false} HistoryMarks(closed: Table, s: State, es: seq<Event>, x: Slot)
    requires Start(s, closed) && x in closed
    ensures Marked(Then(closed, s, es), closed, x, LastMark(closed, s, es, x))
  {
    if |es| > 0 {
      var front := es[..|es| - 1];
      HistoryMarks(closed, s, front, x);
      MarkedStep(closed, Then(closed, s, front), es[|es| - 1], x, LastMark(closed, s, front, x));
    }
  }

  /** All mPFEntryCount are 0. */
  ghost predicate NothingRecorded(s: State) {
    forall c {:trigger s.cpu[c]} :: 0 <= c < |s.cpu| ==> s.cpu[c].count == 0
  }

  /** Whatever the history: when nothing is recorded any more, an entry is the closed one if and only if it was never
      stored to, or the CPU that put it back last had found it closed; unless the last store was that of a fault
      handler, which then belongs to a CPU whose records were full. */
  lemma ClosedAgainIff(closed: Table, s: State, es: seq<Event>, x: Slot)
    requires Start(s, closed) && x in closed && NothingRecorded(Then(closed, s, es))
    ensures x in Then(closed, s, es).table
    ensures var mark := LastMark(closed, s, es, x);
      if mark == Stored then x in Then(closed, s, es).missed
      else Then(closed, s, es).table[x] == closed[x] <==> mark == Untouched || mark == PutBack(closed[x])
  {
    HistoryMarks(closed, s, es, x);
    assert !Recorded(Then(closed, s, es), x);
  }

  // ---------------------------------------------------------------- the layout of the table

  /** A value for slot x says as the closed table does whether x is a large page. */
  predicate SizeOk(closed: Table, x: Slot, e: Entry) { x in closed && (x.Pd? ==> closed[x].ps && e.ps) }

  ghost predicate StoringOk(closed: Table, w: Phase) {
    w.Storing? ==>
      && w.slot in closed && (w.slot.Pd? ==> closed[w.slot].ps) && (w.part == Size ==> w.slot.Pd?)
      && (w.held.Some? && w.part != Size ==> SizeOk(closed, w.slot, w.held.value))
  }

  /** CPU c has not yet set PS again in slot x. */
  predicate Resizing(s: State, c: nat, x: Slot) {
    Doing(s, c).Storing? && Doing(s, c).slot == x && Doing(s, c).part == Size
  }

  ghost predicate SizesOk(s: State, closed: Table) {
    && s.table.Keys == closed.Keys
    && forall x {:trigger s.table[x]} :: x in closed && x.Pd? ==>
         s.table[x].ps == closed[x].ps || exists c {:trigger Resizing(s, c, x)} :: Resizing(s, c, x)
  }

  ghost predicate StoresOk(s: State, closed: Table) {
    && (forall c: nat {:trigger Doing(s, c)} :: StoringOk(closed, Doing(s, c)))
    && (forall c: nat, d: nat {:trigger Doing(s, c), Doing(s, d)} ::
          Doing(s, c).Storing? && Doing(s, d).Storing? ==> c == d)
  }

  ghost predicate RecordsOk(s: State, closed: Table) {
    forall c, k {:trigger Active(s, c, k)} :: Active(s, c, k) ==>
      SizeOk(closed, s.cpu[c].records[k].slot, s.cpu[c].records[k].value)
  }

  /** The layout stays as it is, but for the page directory entry that a CPU is about to set. */
  ghost predicate Layout(s: State, closed: Table) {
    Sized(s) && SizesOk(s, closed) && StoresOk(s, closed) && RecordsOk(s, closed)
  }

  /** While the lock is free the handler finds the leaf that denied the access. */
  lemma SameSlot(s: State, closed: Table, address: nat)
    requires Layout(s, closed) && LockFree(s)
    ensures SlotOf(s.table, address) == SlotOf(closed, address)
  {
    var x := Pd(address / SIZE_2MB);
    assert forall c: nat {:trigger Resizing(s, c, x)} :: Resizing(s, c, x) ==> Doing(s, c).Storing?;
  }

  lemma TakenIsOk(s: State, closed: Table, address: nat)
    requires Layout(s, closed) && LockFree(s) && SlotOf(s.table, address) in s.table
    ensures var x := SlotOf(s.table, address); SizeOk(closed, x, s.table[x])
  {
    SameSlot(s, closed, address);
  }

  lemma StoresOkStep(closed: Table, s: State, e: Event)
    requires Layout(s, closed)
    ensures StoresOk(Step(closed, s, e), closed)
  {
    var s' := Step(closed, s, e);
    forall c: nat ensures StoringOk(closed, Doing(s', c)) {
      assert StoringOk(closed, Doing(s, c));
      if c != e.c || e.c >= |s.cpu| {
        assert Doing(s', c) == Doing(s, c);
      } else if e.Serve? && Served(s, e.c) {
        TakenIsOk(s, closed, s.cpu[e.c].phase.address);
      } else {
        StoringOn(closed, s, e);
      }
    }
    forall c: nat, d: nat | Doing(s', c).Storing? && Doing(s', d).Storing? ensures c == d {
      StoringAfter(closed, s, e, c);
      StoringAfter(closed, s, e, d);
    }
  }

  lemma StoringOn(closed: Table, s: State, e: Event)
    requires Layout(s, closed) && e.c < |s.cpu| && !(e.Serve? && Served(s, e.c))
    ensures StoringOk(closed, Doing(Step(closed, s, e), e.c))
  {
    var w := Doing(s, e.c);
    if e.Serve? && w.Storing? && w.slot in s.table {
      assert StoringOk(closed, w);
      if w.slot.Pd? && s.table[w.slot].ps != closed[w.slot].ps {
        var c :| Resizing(s, c, w.slot);
        assert Doing(s, c).Storing?;
      }
    }
  }

  lemma RecordsOkStep(closed: Table, s: State, e: Event)
    requires Layout(s, closed)
    ensures RecordsOk(Step(closed, s, e), closed)
  {
    var s' := Step(closed, s, e);
    forall c, k | Active(s', c, k) ensures SizeOk(closed, s'.cpu[c].records[k].slot, s'.cpu[c].records[k].value) {
      var x := s'.cpu[c].records[k].slot;
      HoldsAfter(closed, s, e, c, k, x);
      if !Holds(s, c, k, x) {
        TakenIsOk(s, closed, s.cpu[c].phase.address);
        TakenValue(closed, s, e, x);
      }
    }
  }

  lemma SizesOkStep(closed: Table, s: State, e: Event)
    requires Layout(s, closed)
    ensures SizesOk(Step(closed, s, e), closed)
  {
    var s' := Step(closed, s, e);
    KeysAfter(closed, s, e);
    forall x | x in closed && x.Pd?
      ensures s'.table[x].ps == closed[x].ps || exists c {:trigger Resizing(s', c, x)} :: Resizing(s', c, x)
    {
      TableAfter(closed, s, e, x);
      if Stores(s, e, x) {
        assert StoringOk(closed, Doing(s, e.c));
        assert Doing(s, e.c).part == Address ==> Resizing(s', e.c, x);
      } else if !Puts(s, e, x) && s.table[x].ps != closed[x].ps {
        var c :| Resizing(s, c, x);
        assert Resizing(s', c, x);
      }
    }
  }

  lemma KeysAfter(closed: Table, s: State, e: Event)
    requires Layout(s, closed)
    ensures Step(closed, s, e).table.Keys == closed.Keys
  {
    if e.c < |s.cpu| {
      assert StoringOk(closed, Doing(s, e.c));
      if e.Trap? && Doing(s, e.c).Trapping? {
        assert Active(s, e.c, Doing(s, e.c).next) || s.cpu[e.c].count <= Doing(s, e.c).next;
      }
    }
  }

  lemma LayoutStep(closed: Table, s: State, e: Event)
    requires Layout(s, closed)
    ensures Layout(Step(closed, s, e), closed)
  {
    StepSized(closed, s, e);
    SizesOkStep(closed, s, e);
    StoresOkStep(closed, s, e);
    RecordsOkStep(closed, s, e);
  }

  // ---------------------------------------------------------------- one CPU at a slot at a time

  /** CPU c has been denied an access at slot x and is not yet done with it. */
  predicate Pending(s: State, closed: Table, c: nat, x: Slot) {
    match Doing(s, c)
    case Denied(address, _) => SlotOf(closed, address) == x
    case Storing(slot, _, _, _) => slot == x
    case _ => false
  }

  ghost predicate Nobody(s: State, closed: Table, x: Slot) {
    forall c: nat {:trigger Pending(s, closed, c, x)} :: !Pending(s, closed, c, x)
  }

  /** If the event is a denial, no other CPU is pending at that slot. */
  ghost predicate DeniedAlone(closed: Table, s: State, e: Event) {
    e.Raise? && Doing(s, e.c).Idle? && DeniedNow(closed, s, e.address, e.kind) ==>
      Nobody(s, closed, SlotOf(closed, e.address))
  }

  /** What slot x holds while a CPU stores there and nobody else does. */
  predicate Filled(w: Phase, x: Slot, e: Entry)
    requires w.Storing?
  {
    && (w.part == Size ==> e == Entry(false, false, false, false, BaseOf(x)))
    && (w.part == Allow ==> e == Entry(false, false, false, x.Pd?, BaseOf(x)))
    && (w.part == Execute ==> e == Open(x))
    && (w.held.Some? ==> w.part != Address && w.held.value == e)
  }

  /** Slot x is open: somebody has recorded it, or was served there without a record. */
  ghost predicate Opened(s: State, x: Slot) { Recorded(s, x) || x in s.missed }

  ghost predicate PendingOk(s: State, closed: Table, c: nat, x: Slot)
    requires x in s.table && x in closed
  {
    && (Doing(s, c).Denied? && Pending(s, closed, c, x) ==>
          !Opened(s, x) && s.table[x] == closed[x] && Denies(closed[x], Doing(s, c).kind))
    && (Doing(s, c).Storing? && Pending(s, closed, c, x) ==> Opened(s, x) && Filled(Doing(s, c), x, s.table[x]))
  }

  ghost predicate Lone(s: State, closed: Table, x: Slot) {
    && Layout(s, closed) && x in closed && OneRecord(s, closed, x) && StoresRecorded(s, x)
    && (forall c: nat, d: nat {:trigger Pending(s, closed, c, x), Pending(s, closed, d, x)} ::
          Pending(s, closed, c, x) && Pending(s, closed, d, x) ==> c == d)
    && (forall c: nat {:trigger PendingOk(s, closed, c, x)} :: PendingOk(s, closed, c, x))
    && (x in s.missed ==> !Recorded(s, x) && closed[x] != Open(x))
    && (Nobody(s, closed, x) ==> s.table[x] == if Opened(s, x) then Open(x) else closed[x])
  }

  /** A slot that is recorded is pending at its owner at most. */
  lemma RecordedBy(s: State, closed: Table, x: Slot, c: int, k: int, d: nat)
    requires Lone(s, closed, x) && Holds(s, c, k, x) && Pending(s, closed, d, x)
    ensures d == c && Doing(s, d).Storing?
  {
    assert PendingOk(s, closed, d, x);
    assert Recorded(s, x);
  }

  lemma OtherPending(closed: Table, s: State, e: Event, d: nat, x: Slot)
    requires Sized(s) && d != e.c
    ensures Doing(Step(closed, s, e), d) == Doing(s, d)
    ensures Pending(Step(closed, s, e), closed, d, x) == Pending(s, closed, d, x)
  {
  }

  /** What all steps have in common. */
  lemma LoneFrame(closed: Table, s: State, e: Event, x: Slot)
    requires Lone(s, closed, x) && (Takes(s, e, x) ==> !Opened(s, x) && s.table[x] == closed[x])
    ensures var s' := Step(closed, s, e);
      && Layout(s', closed) && OneRecord(s', closed, x) && StoresRecorded(s', x)
      && (!Puts(s, e, x) && !Takes(s, e, x) ==>
            && (Recorded(s', x) <==> Recorded(s, x)) && (x in s'.missed <==> x in s.missed))
      && (!Puts(s, e, x) && !Stores(s, e, x) ==> s'.table[x] == s.table[x])
  {
    LayoutStep(closed, s, e);
    OneRecordStep(closed, s, e, x);
    StoresRecordedStep(closed, s, e, x);
    TableAfter(closed, s, e, x);
    RecordedAfter(closed, s, e, x);
  }

  /** An event that is none of slot x and leaves CPU e.c not pending there if it was not, and as it was if it was. */
  lemma LoneElsewhere(closed: Table, s: State, e: Event, x: Slot)
    requires Lone(s, closed, x) && !Takes(s, e, x) && !Stores(s, e, x) && !Puts(s, e, x)
    requires Doing(Step(closed, s, e), e.c) == Doing(s, e.c)
      || (!Pending(s, closed, e.c, x) && !Pending(Step(closed, s, e), closed, e.c, x))
    ensures Lone(Step(closed, s, e), closed, x)
  {
    var s' := Step(closed, s, e);
    LoneFrame(closed, s, e, x);
    forall d: nat ensures Pending(s', closed, d, x) == Pending(s, closed, d, x) && PendingOk(s', closed, d, x) {
      assert PendingOk(s, closed, d, x);
      if d != e.c { OtherPending(closed, s, e, d, x); }
    }
    assert Nobody(s', closed, x) ==> Nobody(s, closed, x);
  }

  /** A denial at slot x, at which nobody is pending. */
  lemma LoneRaise(closed: Table, s: State, e: Event, x: Slot)
    requires Lone(s, closed, x) && e.Raise? && e.c < |s.cpu| && Doing(s, e.c).Idle?
    requires DeniedNow(closed, s, e.address, e.kind) && SlotOf(closed, e.address) == x && DeniedAlone(closed, s, e)
    ensures Lone(Step(closed, s, e), closed, x)
  {
    var s' := Step(closed, s, e);
    LoneFrame(closed, s, e, x);
    assert Nobody(s, closed, x);
    assert !Opened(s, x) && s.table[x] == closed[x];
    assert Doing(s', e.c) == Denied(e.address, e.kind);
    forall d: nat ensures PendingOk(s', closed, d, x) && (Pending(s', closed, d, x) <==> d == e.c) {
      assert !Pending(s, closed, d, x);
      if d != e.c { OtherPending(closed, s, e, d, x); }
    }
  }

  /** The service of the CPU that is pending at slot x. */
  lemma LoneTake(closed: Table, s: State, e: Event, x: Slot)
    requires Lone(s, closed, x) && Takes(s, e, x)
    ensures Lone(Step(closed, s, e), closed, x)
  {
    var s' := Step(closed, s, e);
    SameSlot(s, closed, s.cpu[e.c].phase.address);
    assert Pending(s, closed, e.c, x) && PendingOk(s, closed, e.c, x);
    LoneFrame(closed, s, e, x);
    HoldsAfter(closed, s, e, e.c, s.cpu[e.c].count, x);
    TableAfter(closed, s, e, x);
    RecordedAfter(closed, s, e, x);
    assert Doing(s', e.c).Storing? && Doing(s', e.c).slot == x;
    if Overflows(s, e, x) { NotRecordedWithout(closed, s, e, x); }
    forall d: nat ensures PendingOk(s', closed, d, x) && (Pending(s', closed, d, x) <==> d == e.c) {
      assert Pending(s, closed, d, x) ==> d == e.c;
      if d != e.c { OtherPending(closed, s, e, d, x); }
    }
    assert Pending(s', closed, e.c, x);
  }

  lemma NotRecordedWithout(closed: Table, s: State, e: Event, x: Slot)
    requires Sized(s) && Overflows(s, e, x) && !Recorded(s, x)
    ensures !Recorded(Step(closed, s, e), x)
  {
    var s' := Step(closed, s, e);
    if Recorded(s', x) {
      var c, k :| Holds(s', c, k, x);
      HoldsAfter(closed, s, e, c, k, x);
    }
  }

  /** A read or store of the CPU that is pending at slot x. */
  lemma LoneStore(closed: Table, s: State, e: Event, x: Slot)
    requires Lone(s, closed, x) && e.Serve? && Doing(s, e.c).Storing? && Doing(s, e.c).slot == x
    ensures Lone(Step(closed, s, e), closed, x)
  {
    var s' := Step(closed, s, e);
    assert Pending(s, closed, e.c, x) && PendingOk(s, closed, e.c, x);
    LoneFrame(closed, s, e, x);
    FilledOn(closed, s, e, x);
    forall d: nat ensures PendingOk(s', closed, d, x) && (Pending(s', closed, d, x) ==> d == e.c) {
      assert Pending(s, closed, d, x) ==> d == e.c;
      if d != e.c { OtherPending(closed, s, e, d, x); }
    }
    assert Pending(s', closed, e.c, x) || s'.table[x] == Open(x);
  }

  lemma FilledOn(closed: Table, s: State, e: Event, x: Slot)
    requires Layout(s, closed) && x in closed && e.Serve? && Doing(s, e.c).Storing? && Doing(s, e.c).slot == x
    requires Filled(Doing(s, e.c), x, s.table[x])
    ensures var s' := Step(closed, s, e);
      && x in s'.table
      && if Doing(s', e.c).Storing? then Doing(s', e.c).slot == x && Filled(Doing(s', e.c), x, s'.table[x])
         else Doing(s', e.c).Idle? && s'.table[x] == Open(x)
  {
    assert StoringOk(closed, Doing(s, e.c));
  }

  /** A record of slot x is put back. */
  lemma LonePut(closed: Table, s: State, e: Event, x: Slot)
    requires Lone(s, closed, x) && Puts(s, e, x)
    ensures Lone(Step(closed, s, e), closed, x)
  {
    var s' := Step(closed, s, e);
    var k := Doing(s, e.c).next;
    LoneFrame(closed, s, e, x);
    TableAfter(closed, s, e, x);
    assert Recorded(s, x);
    if Recorded(s', x) {
      var d, l :| Holds(s', d, l, x);
      HoldsAfter(closed, s, e, d, l, x);
      assert false;
    }
    forall d: nat ensures PendingOk(s', closed, d, x) && !Pending(s', closed, d, x) {
      if Pending(s, closed, d, x) { RecordedBy(s, closed, x, e.c, k, d); }
      if d != e.c { OtherPending(closed, s, e, d, x); }
    }
  }

  lemma LoneStep(closed: Table, s: State, e: Event, x: Slot)
    requires Lone(s, closed, x) && DeniedAlone(closed, s, e)
    ensures Lone(Step(closed, s, e), closed, x)
  {
    if Takes(s, e, x) {
      LoneTake(closed, s, e, x);
    } else if e.Serve? && Doing(s, e.c).Storing? && Doing(s, e.c).slot == x {
      LoneStore(closed, s, e, x);
    } else if Puts(s, e, x) {
      LonePut(closed, s, e, x);
    } else if e.Raise? && e.c < |s.cpu| && Doing(s, e.c).Idle? && DeniedNow(closed, s, e.address, e.kind)
        && SlotOf(closed, e.address) == x {
      LoneRaise(closed, s, e, x);
    } else {
      if e.Serve? && Served(s, e.c) { SameSlot(s, closed, s.cpu[e.c].phase.address); }
      LoneElsewhere(closed, s, e, x);
    }
  }

  // ---------------------------------------------------------------- histories in which nobody is denied beside another

  ghost function AloneOf(closed: Table): (State, Event) -> bool { (t: State, e: Event) => DeniedAlone(closed, t, e) }

  lemma StartIsLone(closed: Table, s: State, x: Slot)
    requires Start(s, closed) && x in closed
    ensures Lone(s, closed, x)
  {
    assert forall c, k {:trigger Active(s, c, k)} :: !Active(s, c, k);
    assert forall c: nat {:trigger Doing(s, c)} :: Doing(s, c).Idle?;
    assert !Opened(s, x);
  }

  lemma {:induction false} HistoryIsLone(closed: Table, s: State, es: seq<Event>, x: Slot)
    requires Start(s, closed) && x in closed && Always(AloneOf(closed), closed, s, es)
    ensures Lone(Then(closed, s, es), closed, x)
  {
    if |es| == 0 {
      StartIsLone(closed, s, x);
    } else {
      var front := es[..|es| - 1];
      HistoryIsLone(closed, s, front, x);
      LoneStep(closed, Then(closed, s, front), es[|es| - 1], x);
    }
  }

  lemma {:induction false} HistoryLayout(closed: Table, s: State, es: seq<Event>)
    requires Start(s, closed)
    ensures Layout(Then(closed, s, es), closed)
  {
    if |es| == 0 {
      assert forall c, k {:trigger Active(s, c, k)} :: !Active(s, c, k);
      assert forall c: nat {:trigger Doing(s, c)} :: Doing(s, c).Idle?;
    } else {
      HistoryLayout(closed, s, es[..|es| - 1]);
      LayoutStep(closed, Then(closed, s, es[..|es| - 1]), es[|es| - 1]);
    }
  }

  /** In every history in which no CPU is denied an access at a slot while another is pending there, no slot is recorded
      twice among the records still to be put back, and each of them holds the closed value. */
  lemma RecordedOnce(closed: Table, s: State, es: seq<Event>)
    requires Start(s, closed) && Always(AloneOf(closed), closed, s, es)
    ensures forall x {:trigger OneRecord(Then(closed, s, es), closed, x)} :: OneRecord(Then(closed, s, es), closed, x)
  {
    var t := Then(closed, s, es);
    HistoryLayout(closed, s, es);
    forall x ensures OneRecord(t, closed, x) {
      if x in closed {
        HistoryIsLone(closed, s, es, x);
      } else {
        NoRecordOutside(t, closed, x);
      }
    }
  }

  lemma NoRecordOutside(t: State, closed: Table, x: Slot)
    requires Layout(t, closed) && x !in closed
    ensures OneRecord(t, closed, x)
  {
    forall c, k ensures !Holds(t, c, k, x) {
      assert Active(t, c, k) ==> SizeOk(closed, t.cpu[c].records[k].slot, t.cpu[c].records[k].value);
    }
  }

  /** No CPU has anything recorded or is in the fault handler; some may wait for the lock. */
  ghost predicate Settled(s: State) { NothingRecorded(s) && LockFree(s) }

  /** In such a history, whenever the machine is settled the table is the closed one but for the slots served without a
      record. */
  lemma ClosedAgain(closed: Table, s: State, es: seq<Event>)
    requires Start(s, closed) && Always(AloneOf(closed), closed, s, es) && Settled(Then(closed, s, es))
    ensures var t := Then(closed, s, es);
      && t.table.Keys == closed.Keys
      && (forall x {:trigger t.table[x]} :: x in closed ==> (t.table[x] == closed[x] <==> x !in t.missed))
  {
    var t := Then(closed, s, es);
    HistoryLayout(closed, s, es);
    forall x | x in closed ensures t.table[x] == closed[x] <==> x !in t.missed {
      HistoryIsLone(closed, s, es, x);
      SettledSlot(t, closed, x);
    }
  }

  lemma SettledSlot(t: State, closed: Table, x: Slot)
    requires Lone(t, closed, x) && Settled(t)
    ensures t.table[x] == closed[x] <==> x !in t.missed
  {
    assert !Recorded(t, x);
    if !Nobody(t, closed, x) {
      var c: nat :| Pending(t, closed, c, x);
      assert PendingOk(t, closed, c, x) && !Doing(t, c).Storing?;
    }
  }

  /** A CPU that is served finds room for a record. */
  ghost predicate HasRoom(s: State, e: Event) { forall x {:trigger Overflows(s, e, x)} :: !Overflows(s, e, x) }

  ghost function RoomOf(): (State, Event) -> bool { (t: State, e: Event) => HasRoom(t, e) }

  lemma {:induction false} MissedIff(closed: Table, s: State, es: seq<Event>)
    requires Start(s, closed)
    ensures Then(closed, s, es).missed == {} <==> Always(RoomOf(), closed, s, es)
    ensures forall x :: x in Then(closed, s, es).missed ==> x in closed
  {
    if |es| > 0 {
      var front, e := es[..|es| - 1], es[|es| - 1];
      MissedIff(closed, s, front);
      HistoryLayout(closed, s, front);
      MissedStep(closed, Then(closed, s, front), e);
    }
  }

  lemma MissedStep(closed: Table, s: State, e: Event)
    requires Layout(s, closed) && forall x :: x in s.missed ==> x in closed
    ensures Step(closed, s, e).missed == {} <==> s.missed == {} && HasRoom(s, e)
    ensures forall x :: x in Step(closed, s, e).missed ==> x in closed
  {
    var s' := Step(closed, s, e);
    if e.Serve? && Served(s, e.c) {
      var x := SlotOf(s.table, s.cpu[e.c].phase.address);
      TableAfter(closed, s, e, x);
      assert HasRoom(s, e) <==> !Overflows(s, e, x);
    } else {
      assert HasRoom(s, e);
      assert s'.missed == s.missed;
    }
  }

  /** So the table is the closed one, whenever the machine is settled, if and only if no CPU ever found its records
      full. */
  lemma NothingLeaks(closed: Table, s: State, es: seq<Event>)
    requires Start(s, closed) && Always(AloneOf(closed), closed, s, es) && Settled(Then(closed, s, es))
    ensures Then(closed, s, es).table == closed <==> Always(RoomOf(), closed, s, es)
  {
    ClosedAgain(closed, s, es);
    MissedIff(closed, s, es);
    var t := Then(closed, s, es);
    if t.missed != {} {
      var x :| x in t.missed;
      assert t.table[x] != closed[x];
    }
  }

  // ---------------------------------------------------------------- the handlers run on their own

  function Repeat(e: Event, n: nat): (es: seq<Event>)
    ensures |es| == n && forall i {:trigger es[i]} :: 0 <= i < n ==> es[i] == e
  {
    seq(n, i requires 0 <= i < n => e)
  }

  lemma ThenOne(closed: Table, s: State, es: seq<Event>, e: Event)
    requires Sized(s)
    ensures Then(closed, s, es + [e]) == Step(closed, Then(closed, s, es), e)
  {
    assert (es + [e])[..|es|] == es;
  }

  lemma {:induction false} ThenAll(closed: Table, s: State, es: seq<Event>, fs: seq<Event>)
    requires Sized(s)
    ensures Then(closed, s, es + fs) == Then(closed, Then(closed, s, es), fs)
  {
    if |fs| == 0 {
      assert es + fs == es;
    } else {
      var last := |fs| - 1;
      ThenAll(closed, s, es, fs[..last]);
      ThenOne(closed, s, es + fs[..last], fs[last]);
      assert (es + fs[..last]) + [fs[last]] == es + fs;
    }
  }

  lemma RepeatOne(closed: Table, s: State, e: Event, n: nat)
    requires Sized(s) && n > 0
    ensures Then(closed, s, Repeat(e, n)) == Step(closed, Then(closed, s, Repeat(e, n - 1)), e)
  {
    assert Repeat(e, n)[..n - 1] == Repeat(e, n - 1);
  }

  /** The service of a denied CPU, undisturbed: the entry is recorded if there is room, and open. */
  function Fault(s: State, c: nat): State
    requires c < |s.cpu| && s.cpu[c].phase.Denied? && SlotOf(s.table, s.cpu[c].phase.address) in s.table
    requires s.cpu[c].count < MAX_PF_ENTRY_COUNT ==> s.cpu[c].count < |s.cpu[c].records|
  {
    var slot := SlotOf(s.table, s.cpu[c].phase.address);
    Become(Take(s, c, slot, s.cpu[c].phase.kind == Fetch), c, Idle).(table := s.table[slot := Open(slot)])
  }

  /** The events it takes. */
  function Length(slot: Slot, fetch: bool): nat { (if slot.Pd? then 6 else 4) + if fetch then 2 else 0 }

  /** The trap of a CPU with one record, undisturbed. */
  function Restored(s: State, c: nat): State
    requires c < |s.cpu| && s.cpu[c].count == 1 && |s.cpu[c].records| > 0
  {
    var r := s.cpu[c].records[0];
    s.(table := s.table[r.slot := r.value], cpu := s.cpu[c := s.cpu[c].(count := 0, phase := Idle)])
  }

  lemma RestoredAlone(closed: Table, s: State, c: nat)
    requires Sized(s) && c < |s.cpu| && s.cpu[c].phase.Idle? && s.cpu[c].count == 1
    ensures Then(closed, s, Repeat(Trap(c), 3)) == Restored(s, c)
  {
    RepeatOne(closed, s, Trap(c), 1);
    RepeatOne(closed, s, Trap(c), 2);
    RepeatOne(closed, s, Trap(c), 3);
  }

  /** CPU c is at this phase, slot x holds e, and all else is as in s. */
  function Midway(s: State, c: nat, phase: Phase, x: Slot, e: Entry): State
    requires c < |s.cpu|
  {
    Become(s, c, phase).(table := s.table[x := e])
  }

  /** A part that reads the entry before it stores it takes two events. */
  lemma PartAlone(closed: Table, s: State, c: nat, part: Part, fetch: bool, x: Slot, e: Entry)
    requires Sized(s) && c < |s.cpu| && part != Address
    ensures Sized(Midway(s, c, Storing(x, fetch, part, None), x, e))
    ensures Then(closed, Midway(s, c, Storing(x, fetch, part, None), x, e), Repeat(Serve(c), 2))
         == Midway(s, c, After(part, x, fetch), x, Altered(part, x, e))
  {
    var m := Midway(s, c, Storing(x, fetch, part, None), x, e);
    RepeatOne(closed, m, Serve(c), 1);
    RepeatOne(closed, m, Serve(c), 2);
    var read := Midway(s, c, Storing(x, fetch, part, Some(e)), x, e);
    assert Step(closed, m, Serve(c)) == read;
    assert Step(closed, read, Serve(c)) == Midway(s, c, After(part, x, fetch), x, Altered(part, x, e));
  }

  lemma RepeatMore(closed: Table, s: State, e: Event, n: nat, m: nat)
    requires Sized(s)
    ensures Then(closed, s, Repeat(e, n + m)) == Then(closed, Then(closed, s, Repeat(e, n)), Repeat(e, m))
  {
    ThenAll(closed, s, Repeat(e, n), Repeat(e, m));
    assert Repeat(e, n) + Repeat(e, m) == Repeat(e, n + m);
  }

  lemma PartNext(closed: Table, s: State, n: nat, t: State, c: nat, part: Part, fetch: bool, x: Slot, e: Entry)
    requires Sized(s) && Sized(t) && c < |t.cpu| && part != Address
    requires Then(closed, s, Repeat(Serve(c), n)) == Midway(t, c, Storing(x, fetch, part, None), x, e)
    ensures Then(closed, s, Repeat(Serve(c), n + 2)) == Midway(t, c, After(part, x, fetch), x, Altered(part, x, e))
  {
    PartAlone(closed, t, c, part, fetch, x, e);
    RepeatMore(closed, s, Serve(c), n, 2);
  }

  lemma TakenAlone(closed: Table, s: State, c: nat)
    requires Sized(s) && Served(s, c)
    ensures var x, fetch := SlotOf(s.table, s.cpu[c].phase.address), s.cpu[c].phase.kind == Fetch;
      Then(closed, s, Repeat(Serve(c), 2))
        == Midway(Take(s, c, x, fetch), c, After(Address, x, fetch), x, Entry(false, false, false, false, BaseOf(x)))
  {
    RepeatOne(closed, s, Serve(c), 1);
    RepeatOne(closed, s, Serve(c), 2);
    var t := Take(s, c, SlotOf(s.table, s.cpu[c].phase.address), s.cpu[c].phase.kind == Fetch);
    assert Step(closed, s, Serve(c)) == t && Doing(t, c).Storing? && !Served(t, c);
  }

  /** Undisturbed, the events of a service come to what Fault says. */
  lemma ServedAlone(closed: Table, s: State, c: nat)
    requires Sized(s) && Served(s, c)
    ensures var x := SlotOf(s.table, s.cpu[c].phase.address);
      Then(closed, s, Repeat(Serve(c), Length(x, s.cpu[c].phase.kind == Fetch))) == Fault(s, c)
  {
    var x, fetch := SlotOf(s.table, s.cpu[c].phase.address), s.cpu[c].phase.kind == Fetch;
    TakenSized(s, c, x, fetch);
    TakenAlone(closed, s, c);
    if x.Pd? {
      LargeAlone(closed, s, Take(s, c, x, fetch), c, fetch, x);
    } else {
      SmallAlone(closed, s, Take(s, c, x, fetch), c, fetch, x);
    }
  }

  lemma LargeAlone(closed: Table, s: State, t: State, c: nat, fetch: bool, x: Slot)
    requires Sized(s) && Sized(t) && c < |t.cpu| && x.Pd?
    requires Then(closed, s, Repeat(Serve(c), 2))
          == Midway(t, c, After(Address, x, fetch), x, Entry(false, false, false, false, BaseOf(x)))
    ensures Then(closed, s, Repeat(Serve(c), Length(x, fetch))) == Midway(t, c, Idle, x, Open(x))
  {
    var base := Entry(false, false, false, false, BaseOf(x));
    SizeAlone(closed, s, t, c, fetch, x, base);
    AllowAlone(closed, s, 4, t, c, fetch, x, base.(ps := true));
  }

  lemma SizeAlone(closed: Table, s: State, t: State, c: nat, fetch: bool, x: Slot, e: Entry)
    requires Sized(s) && Sized(t) && c < |t.cpu|
    requires Then(closed, s, Repeat(Serve(c), 2)) == Midway(t, c, Storing(x, fetch, Size, None), x, e)
    ensures Then(closed, s, Repeat(Serve(c), 4)) == Midway(t, c, Storing(x, fetch, Allow, None), x, e.(ps := true))
  {
    PartNext(closed, s, 2, t, c, Size, fetch, x, e);
  }

  lemma SmallAlone(closed: Table, s: State, t: State, c: nat, fetch: bool, x: Slot)
    requires Sized(s) && Sized(t) && c < |t.cpu| && x.Pt?
    requires Then(closed, s, Repeat(Serve(c), 2))
          == Midway(t, c, After(Address, x, fetch), x, Entry(false, false, false, false, BaseOf(x)))
    ensures Then(closed, s, Repeat(Serve(c), Length(x, fetch))) == Midway(t, c, Idle, x, Open(x))
  {
    AllowAlone(closed, s, 2, t, c, fetch, x, Entry(false, false, false, false, BaseOf(x)));
  }

  /** What that is: the 2MB page or, below a page table, the 4KB page of the address is mapped to itself, present,
      writable and executable, so that no access to it is denied; and the entry as it was is the CPU's next record, if
      it has fewer than ten. */
  lemma FaultIs(s: State, c: nat)
    requires Sized(s) && Served(s, c)
    ensures var v := s.cpu[c];
      var i, a := v.phase.address / 0x20_0000, v.phase.address;
      var large := Pd(i) in s.table && s.table[Pd(i)].ps;
      var x := if large then Pd(i) else Pt(i, a / 0x1000 % 512);
      && x in s.table
      && Fault(s, c).table == s.table[x := Entry(true, true, false, large,
                                                 if large then i * 0x20_0000 else a / 0x1000 * 0x1000)]
      && Fault(s, c).cpu == s.cpu[c := if v.count < 10
           then Cpu(v.count + 1, v.records[v.count := Record(x, s.table[x])], Idle) else v.(phase := Idle)]
      && Fault(s, c).missed == s.missed + (if v.count < 10 then {} else {x})
      && !Denies(Fault(s, c).table[x], v.phase.kind)
  {
    SmallBase(s.cpu[c].phase.address);
  }

  lemma TakenSized(s: State, c: nat, x: Slot, fetch: bool)
    requires Sized(s) && c < |s.cpu| && x in s.table
    ensures Sized(Take(s, c, x, fetch)) && |Take(s, c, x, fetch).cpu| == |s.cpu|
  {
  }

  lemma AllowAlone(closed: Table, s: State, n: nat, t: State, c: nat, fetch: bool, x: Slot, e: Entry)
    requires Sized(s) && Sized(t) && c < |t.cpu| && e.(p := true, rw := true) == Open(x)
    requires Then(closed, s, Repeat(Serve(c), n)) == Midway(t, c, Storing(x, fetch, Allow, None), x, e)
    ensures Then(closed, s, Repeat(Serve(c), n + if fetch then 4 else 2)) == Midway(t, c, Idle, x, Open(x))
  {
    PartNext(closed, s, n, t, c, Allow, fetch, x, e);
    if fetch { PartNext(closed, s, n + 2, t, c, Execute, fetch, x, Open(x)); }
  }

  // ---------------------------------------------------------------- two CPUs denied at one slot

  /** CPUs 0 and 1 are both denied at the same closed entry, and then served. */
  function BothServed(address: nat, x: Slot): seq<Event> {
    [Raise(0, address, Read), Raise(1, address, Read)] + Repeat(Serve(0), Length(x, false))
      + Repeat(Serve(1), Length(x, false))
  }

  ghost predicate TwoDenied(s: State, closed: Table, address: nat) {
    var x := SlotOf(closed, address);
    Start(s, closed) && |s.cpu| == 2 && x in closed && !closed[x].p
  }

  lemma BothDenied(closed: Table, s: State, address: nat) returns (t: State)
    requires TwoDenied(s, closed, address)
    ensures t == Become(Become(s, 0, Denied(address, Read)), 1, Denied(address, Read))
    ensures t == Then(closed, s, [Raise(0, address, Read), Raise(1, address, Read)])
    ensures Sized(t) && Served(t, 0) && Served(t, 1) && SlotOf(t.table, address) == SlotOf(closed, address)
  {
    var es := [Raise(0, address, Read), Raise(1, address, Read)];
    ThenOne(closed, s, [], es[0]);
    ThenOne(closed, s, [es[0]], es[1]);
    assert [] + [es[0]] == [es[0]] && [es[0]] + [es[1]] == es;
    t := Become(Become(s, 0, Denied(address, Read)), 1, Denied(address, Read));
  }

  lemma OpenedSlot(t: Table, address: nat)
    ensures var x := SlotOf(t, address); SlotOf(t[x := Open(x)], address) == x
  {
  }

  lemma OtherServed(s: State, address: nat)
    requires Sized(s) && Served(s, 0) && Served(s, 1) && s.cpu[0].phase == Denied(address, Read) == s.cpu[1].phase
    ensures Served(Fault(s, 0), 1) && Sized(Fault(s, 0)) && Fault(s, 0).cpu[1] == s.cpu[1]
    ensures SlotOf(Fault(s, 0).table, address) == SlotOf(s.table, address)
  {
    OpenedSlot(s.table, address);
    var s1 := Fault(s, 0);
    forall c: nat ensures !Doing(s1, c).Storing? {
      assert !Doing(s, c).Storing?;
    }
  }

  /** A CPU is served; then another at the same slot. */
  lemma ServedOneByOne(closed: Table, s: State, address: nat) returns (t: State)
    requires Sized(s) && Served(s, 0) && Served(s, 1)
      && s.cpu[0].phase == Denied(address, Read) == s.cpu[1].phase
    ensures var n := Length(SlotOf(s.table, address), false);
      t == Then(closed, s, Repeat(Serve(0), n) + Repeat(Serve(1), n))
    ensures Served(Fault(s, 0), 1) && Sized(Fault(s, 0)) && t == Fault(Fault(s, 0), 1)
  {
    var n := Length(SlotOf(s.table, address), false);
    ServedAlone(closed, s, 0);
    var s1 := Fault(s, 0);
    OtherServed(s, address);
    ServedAlone(closed, s1, 1);
    ThenAll(closed, s, Repeat(Serve(0), n), Repeat(Serve(1), n));
    t := Fault(s1, 1);
  }

  /** Both have recorded the slot, the first closed and the second open. */
  ghost predicate RecordedByBoth(t: State, closed: Table, x: Slot) {
    && Sized(t) && x in closed && t.table == closed[x := Open(x)] && t.missed == {} && |t.cpu| == 2
    && (forall c :: 0 <= c < 2 ==> t.cpu[c].phase.Idle? && t.cpu[c].count == 1)
    && t.cpu[0].records[0] == Record(x, closed[x]) && t.cpu[1].records[0] == Record(x, Open(x))
  }

  lemma BothServedIs(closed: Table, s: State, address: nat) returns (t: State)
    requires TwoDenied(s, closed, address)
    ensures var x := SlotOf(closed, address);
      t == Then(closed, s, BothServed(address, x)) && RecordedByBoth(t, closed, x)
  {
    var x := SlotOf(closed, address);
    var n := Length(x, false);
    var s2 := BothDenied(closed, s, address);
    t := ServedOneByOne(closed, s2, address);
    ThenAll(closed, s, [Raise(0, address, Read), Raise(1, address, Read)], Repeat(Serve(0), n) + Repeat(Serve(1), n));
    assert BothServed(address, x)
      == [Raise(0, address, Read), Raise(1, address, Read)] + (Repeat(Serve(0), n) + Repeat(Serve(1), n));
  }

  lemma TrapsInTurn(closed: Table, s: State, es: seq<Event>, t: State, c: nat, d: nat)
    requires Sized(s) && t == Then(closed, s, es) && c < |t.cpu| && d < |t.cpu| && c != d
    requires t.cpu[c].phase.Idle? && t.cpu[c].count == 1 && t.cpu[d].phase.Idle? && t.cpu[d].count == 1
    ensures Then(closed, s, es + Repeat(Trap(c), 3) + Repeat(Trap(d), 3)) == Restored(Restored(t, c), d)
  {
    ThenAll(closed, s, es, Repeat(Trap(c), 3));
    ThenAll(closed, s, es + Repeat(Trap(c), 3), Repeat(Trap(d), 3));
    RestoredAlone(closed, t, c);
    RestoredAlone(closed, Restored(t, c), d);
  }

  /** Then the entry is recorded twice, once open.  If CPU 1 restores it last it stays open, with nothing recorded and
      no records ever full; if CPU 0 does, it is closed. */
  lemma RecordedTwice(closed: Table, s: State, address: nat)
    requires TwoDenied(s, closed, address)
    ensures var x := SlotOf(closed, address);
      var es := BothServed(address, x);
      var left := Then(closed, s, es + Repeat(Trap(0), 3) + Repeat(Trap(1), 3));
      var right := Then(closed, s, es + Repeat(Trap(1), 3) + Repeat(Trap(0), 3));
      && !OneRecord(Then(closed, s, es), closed, x)
      && Settled(left) && left.missed == {} && left.table == closed[x := Open(x)] != closed
      && Settled(right) && right.missed == {} && right.table == closed
  {
    var x := SlotOf(closed, address);
    var es := BothServed(address, x);
    var t := BothServedIs(closed, s, address);
    assert Holds(t, 0, 0, x) && Holds(t, 1, 0, x);
    TrapsInTurn(closed, s, es, t, 0, 1);
    TrapsInTurn(closed, s, es, t, 1, 0);
    BothRestored(t, closed, x);
  }

  lemma BothRestored(t: State, closed: Table, x: Slot)
    requires RecordedByBoth(t, closed, x) && !closed[x].p
    ensures Restored(Restored(t, 0), 1).table == closed[x := Open(x)] != closed
    ensures Restored(Restored(t, 1), 0).table == closed
    ensures Settled(Restored(Restored(t, 0), 1)) && Settled(Restored(Restored(t, 1), 0))
  {
    SettledAfter(Restored(Restored(t, 0), 1));
    SettledAfter(Restored(Restored(t, 1), 0));
    assert closed[x := Open(x)][x] != closed[x];
  }

  lemma SettledAfter(s: State)
    requires |s.cpu| == 2 && forall c :: 0 <= c < 2 ==> s.cpu[c].count == 0 && s.cpu[c].phase.Idle?
    ensures Settled(s)
  {
  }

  // ---------------------------------------------------------------- an eleventh fault

  /** The first eleven large pages are not present. */
  ghost predicate ElevenAbsent(closed: Table) {
    forall i: nat {:trigger Pd(i)} :: i < 11 ==> Pd(i) in closed && closed[Pd(i)].ps && !closed[Pd(i)].p
  }

  /** The only CPU has taken n faults in a row, in a page each. */
  ghost predicate Faulted(s: State, closed: Table, n: nat) {
    && Sized(s) && s.table.Keys == closed.Keys && |s.cpu| == 1 && s.cpu[0].phase.Idle?
    && s.cpu[0].count == (if n < MAX_PF_ENTRY_COUNT then n else MAX_PF_ENTRY_COUNT)
    && (forall i: nat {:trigger Pd(i)} :: n <= i < 11 ==> Pd(i) in s.table && s.table[Pd(i)] == closed[Pd(i)])
    && (n == 11 ==> Pd(10) in s.missed)
  }

  function Faults(n: nat): seq<Event> {
    if n == 0 then [] else Faults(n - 1) + [Raise(0, (n - 1) * SIZE_2MB, Read)] + Repeat(Serve(0), 6)
  }

  lemma FaultOn(closed: Table, s: State, n: nat)
    requires ElevenAbsent(closed) && Faulted(s, closed, n) && n < 11
    ensures Faulted(Then(closed, Step(closed, s, Raise(0, n * SIZE_2MB, Read)), Repeat(Serve(0), 6)), closed, n + 1)
  {
    var address := n * SIZE_2MB;
    assert SlotOf(closed, address) == Pd(n) && SlotOf(s.table, address) == Pd(n);
    var t := Become(s, 0, Denied(address, Read));
    assert Step(closed, s, Raise(0, address, Read)) == t && Served(t, 0);
    ServedAlone(closed, t, 0);
  }

  /** A history of eleven faults of one CPU between two traps; the last of them is not recorded. */
  lemma {:induction false} EleventhFaultLeaks(closed: Table, s: State, n: nat)
    requires ElevenAbsent(closed) && Start(s, closed) && |s.cpu| == 1 && n <= 11
    ensures Faulted(Then(closed, s, Faults(n)), closed, n)
    ensures n == 11 ==> !Always(RoomOf(), closed, s, Faults(n))
  {
    if n > 0 {
      EleventhFaultLeaks(closed, s, n - 1);
      OneMoreFault(closed, s, n);
      MissedIff(closed, s, Faults(n));
    }
  }

  lemma OneMoreFault(closed: Table, s: State, n: nat)
    requires ElevenAbsent(closed) && Sized(s) && 0 < n <= 11
    requires Faulted(Then(closed, s, Faults(n - 1)), closed, n - 1)
    ensures Faulted(Then(closed, s, Faults(n)), closed, n)
  {
    FaultsMore(closed, s, n);
    FaultOn(closed, Then(closed, s, Faults(n - 1)), n - 1);
  }

  lemma FaultsMore(closed: Table, s: State, n: nat)
    requires Sized(s) && n > 0
    ensures var t := Step(closed, Then(closed, s, Faults(n - 1)), Raise(0, (n - 1) * SIZE_2MB, Read));
      Sized(t) && Then(closed, s, Faults(n)) == Then(closed, t, Repeat(Serve(0), 6))
  {
    var raise := Raise(0, (n - 1) * SIZE_2MB, Read);
    ThenOne(closed, s, Faults(n - 1), raise);
    ThenAll(closed, s, Faults(n - 1) + [raise], Repeat(Serve(0), 6));
  }

  // ---------------------------------------------------------------- the handlers in the driver

  lemma TrapOn(closed: Table, s: State, c: nat, n: nat, t: State, t': State)
    requires Sized(s) && t == Then(closed, s, Repeat(Trap(c), n)) && c < |t.cpu| && t' == TrapStep(t, c)
    ensures t' == Then(closed, s, Repeat(Trap(c), n + 1))
  {
    RepeatOne(closed, s, Trap(c), n + 1);
  }

  lemma SmallBase(address: nat)
    ensures address / SIZE_4KB * SIZE_4KB == BaseOf(Pt(address / SIZE_2MB, address / SIZE_4KB % 512))
  {
    var page := address / SIZE_4KB;
    assert page == 512 * (page / 512) + page % 512 && page / 512 == address / SIZE_2MB;
  }

  /** Record k is the last one of slot x among the first n. */
  ghost predicate LastOf(records: seq<Record>, n: nat, x: Slot, k: nat) {
    k < n <= |records| && records[k].slot == x && forall j :: k < j < n ==> records[j].slot != x
  }

  /** The slots of the first n records hold what was recorded, the last record of a slot deciding; the others are as
      they were. */
  ghost predicate AllBack(was: Table, records: seq<Record>, n: nat, now: Table)
    requires n <= |records|
  {
    forall x {:trigger BackAt(was, records, n, now, x)} :: BackAt(was, records, n, now, x)
  }

  ghost predicate BackAt(was: Table, records: seq<Record>, n: nat, now: Table, x: Slot)
    requires n <= |records|
  {
    && (forall k: nat {:trigger LastOf(records, n, x, k)} :: LastOf(records, n, x, k) ==>
         x in now && now[x] == records[k].value)
    && ((forall k :: 0 <= k < n ==> records[k].slot != x) ==>
         (x in now <==> x in was) && (x in was ==> now[x] == was[x]))
  }

  lemma OneMoreBack(was: Table, records: seq<Record>, n: nat, mid: Table, now: Table)
    requires n < |records| && AllBack(was, records, n, mid) && now == mid[records[n].slot := records[n].value]
    ensures AllBack(was, records, n + 1, now)
  {
    var m := n + 1;
    forall x ensures BackAt(was, records, m, now, x) {
      assert BackAt(was, records, n, mid, x);
      SlotBack(was, records, n, mid, now, x);
    }
  }

  /** After n + 1 events of a trap the first n records are back. */
  lemma {:induction false} TrapsPutBack(closed: Table, s: State, c: nat, n: nat)
    requires Sized(s) && c < |s.cpu| && s.cpu[c].phase.Idle? && n <= s.cpu[c].count
    ensures var t := Then(closed, s, Repeat(Trap(c), n + 1));
      && |t.cpu| == |s.cpu| && t.cpu[c] == s.cpu[c].(phase := Trapping(n))
      && AllBack(s.table, s.cpu[c].records, n, t.table)
  {
    RepeatOne(closed, s, Trap(c), n + 1);
    if n == 0 {
      assert Then(closed, s, Repeat(Trap(c), 0)) == s;
      forall x ensures BackAt(s.table, s.cpu[c].records, 0, s.table, x) {}
    } else {
      TrapsPutBack(closed, s, c, n - 1);
      var t := Then(closed, s, Repeat(Trap(c), n));
      OneMoreBack(s.table, s.cpu[c].records, n - 1, t.table, Step(closed, t, Trap(c)).table);
    }
  }

  lemma TrapPutsBack(closed: Table, s: State, c: nat, t: State, t': State)
    requires Sized(s) && c < |s.cpu| && s.cpu[c].phase.Idle?
    requires t == Then(closed, s, Repeat(Trap(c), s.cpu[c].count + 1)) && t'.table == t.table
    ensures AllBack(s.table, s.cpu[c].records, s.cpu[c].count, t'.table)
  {
    TrapsPutBack(closed, s, c, s.cpu[c].count);
  }

  lemma SlotBack(was: Table, records: seq<Record>, n: nat, mid: Table, now: Table, x: Slot)
    requires n < |records| && BackAt(was, records, n, mid, x) && now == mid[records[n].slot := records[n].value]
    ensures BackAt(was, records, n + 1, now, x)
  {
    if records[n].slot != x {
      forall k: nat | LastOf(records, n + 1, x, k) ensures x in now && now[x] == records[k].value {
        assert LastOf(records, n, x, k);
      }
    }
  }

  class SmmProfileTrap {
    var table: Table
    var cpu: seq<Cpu>
    ghost var missed: set<Slot>

    ghost function Now(): State
      reads this
    {
      State(table, cpu, missed)
    }

    /** RestorePageTableBelow4G run on its own, as far as page directory and page table entries go. */
    method RestorePageTableBelow4G(address: nat, c: nat, fetch: bool)
      requires Sized(Now()) && Served(Now(), c) && cpu[c].phase == Denied(address, cpu[c].phase.kind)
      requires fetch == (cpu[c].phase.kind == Fetch)
      modifies this
      ensures Now() == Fault(old(Now()), c)
      ensures var i := address / 0x20_0000;
        if Pd(i) in old(table) && old(table)[Pd(i)].ps then
          table == old(table)[Pd(i) := Entry(true, true, false, true, i * 0x20_0000)]
        else table == old(table)[Pt(i, address / 0x1000 % 512) :=
                                   Entry(true, true, false, false, address / 0x1000 * 0x1000)]
    {
      FaultIs(Now(), c);
      var i := address / SIZE_2MB;
      if Pd(i) in table && table[Pd(i)].ps {
        Remember(c, Pd(i), fetch);
        SetLarge(i, address, fetch);
      } else {
        var slot := Pt(i, address / SIZE_4KB % 512);
        Remember(c, slot, fetch);
        SetSmall(slot, address, fetch);
      }
      cpu := cpu[c := cpu[c].(phase := Idle)];
    }

    /** Set the new entry of a large page. */
    method SetLarge(i: nat, address: nat, fetch: bool)
      requires i == address / SIZE_2MB
      modifies this`table
      ensures table == old(table)[Pd(i) := Open(Pd(i))]
    {
      table := table[Pd(i) := Entry(false, false, false, false, address / SIZE_2MB * SIZE_2MB)];
      table := table[Pd(i) := table[Pd(i)].(ps := true)];
      table := table[Pd(i) := table[Pd(i)].(rw := true, p := true)];
      if fetch {
        table := table[Pd(i) := table[Pd(i)].(nx := false)];
      }
    }

    /** Set the new entry of a small page. */
    method SetSmall(slot: Slot, address: nat, fetch: bool)
      requires slot == Pt(address / SIZE_2MB, address / SIZE_4KB % 512)
      modifies this`table
      ensures table == old(table)[slot := Open(slot)]
    {
      SmallBase(address);
      table := table[slot := Entry(false, false, false, false, address / SIZE_4KB * SIZE_4KB)];
      table := table[slot := table[slot].(rw := true, p := true)];
      if fetch {
        table := table[slot := table[slot].(nx := false)];
      }
    }

    method Remember(c: nat, slot: Slot, ghost fetch: bool)
      requires Sized(Now()) && c < |cpu| && slot in table
      modifies this`cpu, this`missed
      ensures |cpu| == old(|cpu|)
      ensures Become(Now(), c, Storing(slot, fetch, Address, None)) == Take(old(Now()), c, slot, fetch)
    {
      if cpu[c].count < MAX_PF_ENTRY_COUNT {
        var records := cpu[c].records[cpu[c].count := Record(slot, table[slot])];
        cpu := cpu[c := cpu[c].(count := cpu[c].count + 1, records := records)];
      } else {
        missed := missed + {slot};
      }
    }

    /** One turn of the loop. */
    method PutBack(c: nat, entry: nat)
      requires c < |cpu| && cpu[c].phase == Trapping(entry) && entry < cpu[c].count <= |cpu[c].records|
      modifies this`table, this`cpu
      ensures Now() == TrapStep(old(Now()), c)
    {
      table := table[cpu[c].records[entry].slot := cpu[c].records[entry].value];
      cpu := cpu[c := cpu[c].(phase := Trapping(entry + 1))];
    }

    /** DebugExceptionHandler run on its own: the steps of a trap from start to end. */
    method DebugExceptionHandler(c: nat, ghost closed: Table)
      requires Sized(Now()) && c < |cpu| && cpu[c].phase.Idle?
      modifies this
      ensures Now() == Then(closed, old(Now()), Repeat(Trap(c), old(cpu[c].count) + 2))
      ensures |cpu| == old(|cpu|) && cpu[c].phase.Idle? && cpu[c].count == 0
      ensures AllBack(old(table), old(cpu)[c].records, old(cpu)[c].count, table)
    {
      ghost var was, t := Now(), Now();
      RepeatOne(closed, was, Trap(c), 1);
      cpu := cpu[c := cpu[c].(phase := Trapping(0))];
      var entry := 0;
      while entry < cpu[c].count
        invariant |cpu| == |was.cpu| && entry <= cpu[c].count == was.cpu[c].count <= |cpu[c].records|
        invariant cpu[c].phase == Trapping(entry)
        invariant Now() == Then(closed, was, Repeat(Trap(c), entry + 1))
      {
        t := Now();
        PutBack(c, entry);
        TrapOn(closed, was, c, entry + 1, t, Now());
        entry := entry + 1;
      }
      t := Now();
      cpu := cpu[c := cpu[c].(count := 0, phase := Idle)];
      TrapOn(closed, was, c, entry + 1, t, Now());
      TrapPutsBack(closed, was, c, t, Now());
    }
  }
}
