/** The hot-plug bookkeeping of CpuService.c: processors are added and removed by request, and the requests are
    retired after the SMI handlers. */
module HotPlug {
  import opened Sums

  const INVALID_APIC_ID: nat := 0xFFFF_FFFF_FFFF_FFFF

  /** SMM_CPU_OPERATION. */
  datatype Operation = SmmCpuNone | SmmCpuAdd | SmmCpuRemove | SmmCpuSwitchBsp

  datatype Status = Success | Unsupported | NotFound | InvalidParameter | AlreadyStarted

  /** ProcessorInfo[].ProcessorId, Operation[], mCpuHotPlugData.ApicId[], mNumberOfCpus, and the request for a
      new BSP in mSmmMpSyncData. */
  datatype State = State(processorId: seq<nat>, operation: seq<Operation>, apicId: seq<nat>, numberOfCpus: int,
                         switchBsp: bool, candidateBsp: seq<bool>)

  ghost predicate Sized(s: State) {
    |s.operation| == |s.processorId| && |s.apicId| == |s.processorId| && |s.candidateBsp| == |s.processorId|
  }

  ghost function Pending(s: State, op: Operation): (xs: seq<int>)
    ensures |xs| == |s.operation| && forall i {:trigger xs[i]} :: 0 <= i < |xs| ==>
      xs[i] == if s.operation[i] == op then 1 else 0
  {
    seq(|s.operation|, i requires 0 <= i < |s.operation| => if s.operation[i] == op then 1 else 0)
  }

  ghost function Online(s: State): (xs: seq<int>)
    ensures |xs| == |s.processorId| && forall i {:trigger xs[i]} :: 0 <= i < |xs| ==>
      xs[i] == if s.processorId[i] != INVALID_APIC_ID then 1 else 0
  {
    seq(|s.processorId|, i requires 0 <= i < |s.processorId| => if s.processorId[i] != INVALID_APIC_ID then 1 else 0)
  }

  /** By how much the processor count, corrected by what is pending, exceeds the number of slots with a processor. */
  ghost function Excess(s: State): int {
    s.numberOfCpus + Sum(Pending(s, SmmCpuAdd)) - Sum(Pending(s, SmmCpuRemove)) - Sum(Online(s))
  }

  ghost predicate Balanced(s: State) { Excess(s) == 0 }

  ghost predicate Distinct(s: State) {
    forall i, j {:trigger s.processorId[i], s.processorId[j]} ::
      0 <= i < j < |s.processorId| && s.processorId[i] != INVALID_APIC_ID ==>
      s.processorId[i] != s.processorId[j]
  }

  /** Only a slot without a processor waits for its removal to be retired; the other requests are for processors. */
  ghost predicate Consistent(s: State) {
    forall i {:trigger s.operation[i]} :: 0 <= i < |s.operation| && i < |s.processorId| ==>
      && (s.operation[i] == SmmCpuRemove ==> s.processorId[i] == INVALID_APIC_ID)
      && (s.operation[i] == SmmCpuAdd || s.operation[i] == SmmCpuSwitchBsp ==> s.processorId[i] != INVALID_APIC_ID)
  }

  ghost predicate Sound(s: State) { Sized(s) && Distinct(s) && Consistent(s) }

  ghost predicate Good(s: State) { Sound(s) && Balanced(s) }

  // ---------------------------------------------------------------- the services as functions

  /** First slot from k on whose processor has this id; the number of slots when there is none. */
  function FindId(s: State, id: nat, k: nat): (r: nat)
    requires k <= |s.processorId|
    ensures k <= r <= |s.processorId| && (r < |s.processorId| ==> s.processorId[r] == id)
    ensures forall i :: k <= i < r ==> s.processorId[i] != id
    decreases |s.processorId| - k
  {
    if k == |s.processorId| || s.processorId[k] == id then k else FindId(s, id, k + 1)
  }

  /** First slot from k on that the hot plug data reserve for this id and that has no processor. */
  function FindRoom(s: State, id: nat, k: nat): (r: nat)
    requires k <= |s.processorId| == |s.apicId|
    ensures k <= r <= |s.processorId|
      && (r < |s.processorId| ==> s.apicId[r] == id && s.processorId[r] == INVALID_APIC_ID)
    ensures forall i :: k <= i < r ==> !(s.apicId[i] == id && s.processorId[i] == INVALID_APIC_ID)
    decreases |s.processorId| - k
  {
    if k == |s.processorId| || (s.apicId[k] == id && s.processorId[k] == INVALID_APIC_ID) then k
    else FindRoom(s, id, k + 1)
  }

  function Add(s: State, support: bool, id: nat): (Status, State)
    requires |s.operation| == |s.processorId| == |s.apicId|
  {
    if !support then (Unsupported, s)
    else if id == INVALID_APIC_ID then (InvalidParameter, s)
    else if FindId(s, id, 0) < |s.processorId| then (AlreadyStarted, s)
    else
      var i := FindRoom(s, id, 0);
      if i == |s.processorId| then (InvalidParameter, s)
      else (Success, s.(processorId := s.processorId[i := id], operation := s.operation[i := SmmCpuAdd]))
  }

  function Remove(s: State, support: bool, i: nat, executing: nat): (Status, State)
    requires |s.operation| == |s.processorId| == |s.apicId|
  {
    if !support then (Unsupported, s)
    else if i >= |s.processorId| || s.processorId[i] == INVALID_APIC_ID then (InvalidParameter, s)
    else if i == executing || s.operation[i] != SmmCpuNone then (Unsupported, s)
    else (Success, s.(processorId := s.processorId[i := INVALID_APIC_ID], apicId := s.apicId[i := INVALID_APIC_ID],
                      operation := s.operation[i := SmmCpuRemove]))
  }

  function SwitchBsp(s: State, i: nat, executing: nat): (Status, State)
    requires |s.operation| == |s.processorId|
  {
    if i >= |s.processorId| then (InvalidParameter, s)
    else if s.processorId[i] == INVALID_APIC_ID then (NotFound, s)
    else if s.operation[i] != SmmCpuNone || executing == i then (Unsupported, s)
    else (Success, s.(operation := s.operation[i := SmmCpuSwitchBsp]))
  }

  /** What SmmCpuUpdate leaves: nothing pending, the count corrected, the candidates for BSP marked. */
  ghost function Updated(s: State): State
    requires Sized(s)
  {
    State(s.processorId, seq(|s.operation|, i => SmmCpuNone), s.apicId,
          s.numberOfCpus + Sum(Pending(s, SmmCpuAdd)) - Sum(Pending(s, SmmCpuRemove)),
          s.switchBsp || SmmCpuSwitchBsp in s.operation,
          seq(|s.candidateBsp|, i requires 0 <= i < |s.candidateBsp| => s.candidateBsp[i]
            || s.operation[i] == SmmCpuSwitchBsp))
  }

  // ---------------------------------------------------------------- what they do

  /** Slot i is the first one reserved for this id that has no processor. */
  ghost predicate FirstRoom(s: State, id: nat, i: nat) {
    && i < |s.processorId| == |s.apicId| && s.apicId[i] == id && s.processorId[i] == 0xFFFF_FFFF_FFFF_FFFF
    && forall j :: 0 <= j < i ==> !(s.apicId[j] == id && s.processorId[j] == 0xFFFF_FFFF_FFFF_FFFF)
  }

  /** Who is added: a processor with a proper id that is not there yet and has a slot reserved; to the first such
      slot. */
  lemma AddDoes(s: State, support: bool, id: nat)
    requires Sized(s)
    ensures var (status, s') := Add(s, support, id);
      var there, room := exists j :: 0 <= j < |s.processorId| && s.processorId[j] == id,
                         exists j: nat :: FirstRoom(s, id, j);
      && status == (if !support then Unsupported else if id == 0xFFFF_FFFF_FFFF_FFFF then InvalidParameter
                    else if there then AlreadyStarted else if !room then InvalidParameter else Success)
      && (status != Success ==> s' == s)
      && (forall i: nat {:trigger FirstRoom(s, id, i)} :: status == Success && FirstRoom(s, id, i) ==>
           s' == s.(processorId := s.processorId[i := id], operation := s.operation[i := SmmCpuAdd]))
  {
    var i := FindRoom(s, id, 0);
    if i < |s.processorId| { assert FirstRoom(s, id, i); }
    if j: nat :| FirstRoom(s, id, j) { assert i == j; }
  }

  /** Who is removed: any other processor than the executing one, with nothing pending for it. */
  lemma RemoveDoes(s: State, support: bool, i: nat, executing: nat)
    requires Sized(s)
    ensures var (status, s') := Remove(s, support, i, executing);
      if !support then status == Unsupported && s' == s
      else if i >= |s.processorId| || s.processorId[i] == 0xFFFF_FFFF_FFFF_FFFF then
        status == InvalidParameter && s' == s
      else if i == executing || s.operation[i] != SmmCpuNone then status == Unsupported && s' == s
      else status == Success && s' == s.(processorId := s.processorId[i := 0xFFFF_FFFF_FFFF_FFFF],
                                         apicId := s.apicId[i := 0xFFFF_FFFF_FFFF_FFFF],
                                         operation := s.operation[i := SmmCpuRemove])
  {
  }

  /** The request for processor i to become the BSP is granted. */
  ghost predicate MayLead(s: State, i: nat, executing: nat)
    requires Sized(s)
  {
    && i < |s.processorId| && s.processorId[i] != 0xFFFF_FFFF_FFFF_FFFF
    && s.operation[i] == SmmCpuNone && i != executing
  }

  /** A request for a new BSP is granted for any other processor than the executing one with nothing pending for it.
      The update after it marks that processor as a candidate, together with those requested before, and asks for the
      switch. */
  lemma SwitchBspDoes(s: State, i: nat, executing: nat)
    requires Sized(s)
    ensures var (status, s') := SwitchBsp(s, i, executing);
      && status == (if i >= |s.processorId| then InvalidParameter
                    else if s.processorId[i] == 0xFFFF_FFFF_FFFF_FFFF then NotFound
                    else if MayLead(s, i, executing) then Success else Unsupported)
      && (status != Success ==> s' == s)
      && Sized(s')
      && (forall j :: 0 <= j < |s.candidateBsp| ==> (Updated(s').candidateBsp[j] <==>
           s.candidateBsp[j] || s.operation[j] == SmmCpuSwitchBsp || (status == Success && j == i)))
      && (Updated(s').switchBsp <==>
           s.switchBsp || status == Success || exists j :: 0 <= j < |s.operation| && s.operation[j] == SmmCpuSwitchBsp)
      && (status == Success ==> s' == s.(operation := s.operation[i := SmmCpuSwitchBsp]))
  {
    var s' := SwitchBsp(s, i, executing).1;
    if SmmCpuSwitchBsp in s'.operation {
      var j :| 0 <= j < |s'.operation| && s'.operation[j] == SmmCpuSwitchBsp;
      assert j != i ==> s.operation[j] == SmmCpuSwitchBsp;
    }
    if j :| 0 <= j < |s.operation| && s.operation[j] == SmmCpuSwitchBsp {
      assert s'.operation[j] == SmmCpuSwitchBsp;
    }
    if MayLead(s, i, executing) { assert s'.operation[i] == SmmCpuSwitchBsp; }
  }

  // ---------------------------------------------------------------- what they keep

  lemma PendingSet(s: State, i: nat, to: Operation, op: Operation)
    requires i < |s.operation|
    ensures Sum(Pending(s.(operation := s.operation[i := to]), op))
         == Sum(Pending(s, op)) - (if s.operation[i] == op then 1 else 0) + (if to == op then 1 else 0)
  {
    SumUpdate(Pending(s, op), i, if to == op then 1 else 0);
    assert Pending(s.(operation := s.operation[i := to]), op) == Pending(s, op)[i := if to == op then 1 else 0];
  }

  lemma OnlineSet(s: State, i: nat, id: nat)
    requires i < |s.processorId|
    ensures Sum(Online(s.(processorId := s.processorId[i := id])))
         == Sum(Online(s)) - (if s.processorId[i] != INVALID_APIC_ID then 1 else 0)
           + (if id != INVALID_APIC_ID then 1 else 0)
  {
    SumUpdate(Online(s), i, if id != INVALID_APIC_ID then 1 else 0);
    assert Online(s.(processorId := s.processorId[i := id])) == Online(s)[i := if id != INVALID_APIC_ID then 1 else 0];
  }

  /** A successful addition keeps the balance, unless the slot's removal is still to be retired: then the count will
      be one too high. */
  lemma AddKeeps(s: State, support: bool, id: nat)
    requires Sound(s)
    ensures var (status, s') := Add(s, support, id);
      Sound(s') && Excess(s') == Excess(s)
        + if status == Success && s.operation[FindRoom(s, id, 0)] == SmmCpuRemove then 1 else 0
  {
    var i := FindRoom(s, id, 0);
    if Add(s, support, id).0 == Success {
      var s1 := s.(processorId := s.processorId[i := id]);
      OnlineSet(s, i, id);
      PendingSet(s1, i, SmmCpuAdd, SmmCpuAdd);
      PendingSet(s1, i, SmmCpuAdd, SmmCpuRemove);
      assert Pending(s1, SmmCpuAdd) == Pending(s, SmmCpuAdd) && Pending(s1, SmmCpuRemove) == Pending(s, SmmCpuRemove);
      assert Online(Add(s, support, id).1) == Online(s1);
    }
  }

  /** A slot refilled before its removal is retired: processor 1 is removed, its slot reserved for another and refilled
      before the next update, which then counts three processors where there are two. */
  lemma RefilledTooEarly()
    ensures var s0 := State([0, 1], [SmmCpuNone, SmmCpuNone], [0, 1], 2, false, [false, false]);
      var s2 := After(After(s0, true, DoRemove(1, 0)), true, DoReserve(1, 7));
      var s3 := After(s2, true, DoAdd(7));
      && Good(s0) && Good(s2) && !Retired(s2, true, DoAdd(7)) && !Balanced(s3)
      && Updated(s3).numberOfCpus == 3 && Sum(Online(s3)) == 2
  {
    var s0 := State([0, 1], [SmmCpuNone, SmmCpuNone], [0, 1], 2, false, [false, false]);
    var s2 := State([0, INVALID_APIC_ID], [SmmCpuNone, SmmCpuRemove], [0, 7], 2, false, [false, false]);
    var s3 := State([0, 7], [SmmCpuNone, SmmCpuAdd], [0, 7], 2, false, [false, false]);
    EarlyStates(s0, s2, s3);
    TwoSlots(s0);
    TwoSlots(s2);
    TwoSlots(s3);
  }

  lemma EarlyStates(s0: State, s2: State, s3: State)
    requires s0 == State([0, 1], [SmmCpuNone, SmmCpuNone], [0, 1], 2, false, [false, false])
    requires s2 == State([0, INVALID_APIC_ID], [SmmCpuNone, SmmCpuRemove], [0, 7], 2, false, [false, false])
    requires s3 == State([0, 7], [SmmCpuNone, SmmCpuAdd], [0, 7], 2, false, [false, false])
    ensures After(After(s0, true, DoRemove(1, 0)), true, DoReserve(1, 7)) == s2
    ensures After(s2, true, DoAdd(7)) == s3 && !Retired(s2, true, DoAdd(7))
  {
    var s1 := After(s0, true, DoRemove(1, 0));
    assert s1 == State([0, INVALID_APIC_ID], [SmmCpuNone, SmmCpuRemove], [0, INVALID_APIC_ID], 2, false,
      [false, false]);
    assert FindRoom(s2, 7, 0) == 1;
  }

  /** The counts of a state with two slots. */
  lemma TwoSlots(s: State)
    requires |s.processorId| == |s.operation| == 2
    ensures Sum(Online(s)) == Online(s)[0] + Online(s)[1]
    ensures forall op :: Sum(Pending(s, op)) == Pending(s, op)[0] + Pending(s, op)[1]
  {
    TwoSum(Online(s));
    forall op ensures Sum(Pending(s, op)) == Pending(s, op)[0] + Pending(s, op)[1] {
      TwoSum(Pending(s, op));
    }
  }

  lemma TwoSum(xs: seq<int>)
    requires |xs| == 2
    ensures Sum(xs) == xs[0] + xs[1]
  {
    assert Sum(xs[1..]) == xs[1] + Sum(xs[1..][1..]);
  }

  lemma RemoveKeeps(s: State, support: bool, i: nat, executing: nat)
    requires Sound(s)
    ensures var s' := Remove(s, support, i, executing).1; Sound(s') && Excess(s') == Excess(s)
  {
    if Remove(s, support, i, executing).0 == Success {
      var s1 := s.(processorId := s.processorId[i := INVALID_APIC_ID], apicId := s.apicId[i := INVALID_APIC_ID]);
      OnlineSet(s, i, INVALID_APIC_ID);
      PendingSet(s1, i, SmmCpuRemove, SmmCpuAdd);
      PendingSet(s1, i, SmmCpuRemove, SmmCpuRemove);
      assert Pending(s1, SmmCpuAdd) == Pending(s, SmmCpuAdd) && Pending(s1, SmmCpuRemove) == Pending(s, SmmCpuRemove);
      assert Online(Remove(s, support, i, executing).1)
        == Online(s.(processorId := s.processorId[i := INVALID_APIC_ID]));
    }
  }

  lemma SwitchBspKeeps(s: State, i: nat, executing: nat)
    requires Sound(s)
    ensures var s' := SwitchBsp(s, i, executing).1; Sound(s') && Excess(s') == Excess(s)
  {
    if SwitchBsp(s, i, executing).0 == Success {
      PendingSet(s, i, SmmCpuSwitchBsp, SmmCpuAdd);
      PendingSet(s, i, SmmCpuSwitchBsp, SmmCpuRemove);
      assert Online(SwitchBsp(s, i, executing).1) == Online(s);
    }
  }

  /** After the update nothing is pending and the count is the number of processors, but for the excess. */
  lemma UpdateSettles(s: State)
    requires Sound(s)
    ensures Sound(Updated(s)) && Excess(Updated(s)) == Excess(s)
    ensures Updated(s).numberOfCpus == Sum(Online(s)) + Excess(s)
    ensures forall i :: 0 <= i < |s.operation| ==> Updated(s).operation[i] == SmmCpuNone
  {
    SumZero(Pending(Updated(s), SmmCpuAdd));
    SumZero(Pending(Updated(s), SmmCpuRemove));
    assert Online(Updated(s)) == Online(s);
  }

  // ---------------------------------------------------------------- over all histories

  /** A call of a service, the update at the end of an SMI, or the RAS handler reserving a slot for an id. */
  datatype Event =
    | DoAdd(id: nat)
    | DoRemove(i: nat, executing: nat)
    | DoSwitchBsp(i: nat, executing: nat)
    | DoUpdate
    | DoReserve(i: nat, id: nat)

  ghost function After(s: State, support: bool, e: Event): State
    requires Sized(s)
  {
    match e
    case DoAdd(id) => Add(s, support, id).1
    case DoRemove(i, executing) => Remove(s, support, i, executing).1
    case DoSwitchBsp(i, executing) => SwitchBsp(s, i, executing).1
    case DoUpdate => Updated(s)
    case DoReserve(i, id) => if i < |s.apicId| then s.(apicId := s.apicId[i := id]) else s
  }

  /** The event does not add a processor to a slot whose removal is still to be retired. */
  ghost predicate Retired(s: State, support: bool, e: Event)
    requires Sized(s)
  {
    e.DoAdd? && Add(s, support, e.id).0 == Success ==> s.operation[FindRoom(s, e.id, 0)] != SmmCpuRemove
  }

  /** A history of states, each the next one's predecessor under the event at its place. */
  ghost predicate History(ss: seq<State>, es: seq<Event>, support: bool) {
    |ss| == |es| + 1 && forall k :: 0 <= k < |es| ==> EventAt(ss, es, support, k)
  }

  ghost predicate EventAt(ss: seq<State>, es: seq<Event>, support: bool, k: nat)
    requires k < |es| && k + 1 < |ss|
  {
    Sized(ss[k]) && ss[k + 1] == After(ss[k], support, es[k])
  }

  lemma EventKeeps(s: State, support: bool, e: Event)
    requires Sound(s)
    ensures Sound(After(s, support, e))
    ensures Excess(After(s, support, e)) == Excess(s) + if Retired(s, support, e) then 0 else 1
  {
    match e
    case DoAdd(id) => AddKeeps(s, support, id);
    case DoRemove(i, executing) => RemoveKeeps(s, support, i, executing);
    case DoSwitchBsp(i, executing) => SwitchBspKeeps(s, i, executing);
    case DoUpdate => UpdateSettles(s);
    case DoReserve(i, id) =>
      var s' := After(s, support, e);
      assert Pending(s', SmmCpuAdd) == Pending(s, SmmCpuAdd) && Pending(s', SmmCpuRemove) == Pending(s, SmmCpuRemove);
      assert Online(s') == Online(s);
  }

  /** How many of the first k events refilled a slot too early. */
  ghost function EarlyRefills(ss: seq<State>, es: seq<Event>, support: bool, k: nat): nat
    requires History(ss, es, support) && k < |ss|
  {
    if k == 0 then 0
    else
      assert EventAt(ss, es, support, k - 1);
      EarlyRefills(ss, es, support, k - 1) + if Retired(ss[k - 1], support, es[k - 1]) then 0 else 1
  }

  /** In every history the ids stay pairwise distinct, and the excess of the count grows by one with each early refill
      and with nothing else. */
  lemma {:induction false} HistoryExcess(ss: seq<State>, es: seq<Event>, support: bool, k: nat)
    requires History(ss, es, support) && Sound(ss[0]) && k < |ss|
    ensures Sound(ss[k]) && Excess(ss[k]) == Excess(ss[0]) + EarlyRefills(ss, es, support, k)
    decreases k
  {
    if k > 0 {
      HistoryExcess(ss, es, support, k - 1);
      assert EventAt(ss, es, support, k - 1);
      EventKeeps(ss[k - 1], support, es[k - 1]);
    }
  }

  lemma {:induction false} NoEarlyRefill(ss: seq<State>, es: seq<Event>, support: bool, k: nat)
    requires History(ss, es, support) && k < |ss|
    ensures EarlyRefills(ss, es, support, k) == 0
       <==> forall j :: 0 <= j < k ==> EventAt(ss, es, support, j) && Retired(ss[j], support, es[j])
    decreases k
  {
    if k > 0 {
      NoEarlyRefill(ss, es, support, k - 1);
      assert EventAt(ss, es, support, k - 1);
    }
  }

  /** So the count, corrected by what is pending, is the number of processors if and only if no slot was refilled before
      its removal was retired; and the next update sets it to that number then. */
  lemma HistoryKeeps(ss: seq<State>, es: seq<Event>, support: bool, k: nat)
    requires History(ss, es, support) && Good(ss[0]) && k < |ss|
    ensures Sound(ss[k])
    ensures Good(ss[k]) <==> forall j :: 0 <= j < k ==> EventAt(ss, es, support, j) && Retired(ss[j], support, es[j])
    ensures Updated(ss[k]).numberOfCpus == Sum(Online(ss[k])) <==> Good(ss[k])
  {
    HistoryExcess(ss, es, support, k);
    NoEarlyRefill(ss, es, support, k);
    UpdateSettles(ss[k]);
  }

  // ---------------------------------------------------------------- the services

  class SmmCpuService {
    const support: bool
    var processorId: seq<nat>
    var operation: seq<Operation>
    var apicId: seq<nat>
    var numberOfCpus: int
    var switchBsp: bool
    var candidateBsp: seq<bool>

    ghost function Now(): State
      reads this
    {
      State(processorId, operation, apicId, numberOfCpus, switchBsp, candidateBsp)
    }

    method SmmAddProcessor(id: nat) returns (status: Status, processorNumber: nat)
      requires Sized(Now())
      modifies this
      ensures (status, Now()) == Add(old(Now()), support, id)
      ensures status == Success ==> processorNumber == FindRoom(old(Now()), id, 0)
    {
      if !support {
        return Unsupported, 0;
      }
      if id == INVALID_APIC_ID {
        return InvalidParameter, 0;
      }
      var index := 0;
      while index < |processorId|
        invariant index <= |processorId| && Now() == old(Now()) && FindId(Now(), id, 0) == FindId(Now(), id, index)
      {
        if processorId[index] == id {
          return AlreadyStarted, 0;
        }
        index := index + 1;
      }
      index := 0;
      while index < |processorId|
        invariant index <= |processorId| && Now() == old(Now()) && FindRoom(Now(), id, 0) == FindRoom(Now(), id, index)
      {
        if apicId[index] == id && processorId[index] == INVALID_APIC_ID {
          processorId := processorId[index := id];
          operation := operation[index := SmmCpuAdd];
          return Success, index;
        }
        index := index + 1;
      }
      return InvalidParameter, 0;
    }

    method SmmRemoveProcessor(i: nat, executing: nat) returns (status: Status)
      requires Sized(Now())
      modifies this
      ensures (status, Now()) == Remove(old(Now()), support, i, executing)
    {
      if !support {
        return Unsupported;
      }
      if i >= |processorId| || processorId[i] == INVALID_APIC_ID {
        return InvalidParameter;
      }
      if i == executing {
        return Unsupported;
      }
      if operation[i] != SmmCpuNone {
        return Unsupported;
      }
      processorId := processorId[i := INVALID_APIC_ID];
      apicId := apicId[i := INVALID_APIC_ID];
      operation := operation[i := SmmCpuRemove];
      return Success;
    }

    method SmmSwitchBsp(i: nat, executing: nat) returns (status: Status)
      requires Sized(Now())
      modifies this
      ensures (status, Now()) == SwitchBsp(old(Now()), i, executing)
    {
      if i >= |processorId| {
        return InvalidParameter;
      }
      if processorId[i] == INVALID_APIC_ID {
        return NotFound;
      }
      if operation[i] != SmmCpuNone || executing == i {
        return Unsupported;
      }
      operation := operation[i := SmmCpuSwitchBsp];
      return Success;
    }

    /** The three loops of SmmCpuUpdate, one after the other. */
    method SmmCpuUpdate()
      requires Sized(Now())
      modifies this
      ensures Now() == Updated(old(Now()))
    {
      ghost var s := Now();
      MarkCandidates();
      ghost var s1 := Now();
      OthersSame(s, s1, SmmCpuSwitchBsp, SmmCpuAdd);
      OthersSame(s, s1, SmmCpuSwitchBsp, SmmCpuRemove);
      Retire(SmmCpuAdd, 1);
      ghost var s2 := Now();
      OthersSame(s1, s2, SmmCpuAdd, SmmCpuRemove);
      Retire(SmmCpuRemove, -1);
      assert operation == seq(|s.operation|, i => SmmCpuNone);
    }

    method MarkCandidates()
      requires Sized(Now())
      modifies this`operation, this`switchBsp, this`candidateBsp
      ensures Cleared(old(Now()), Now(), SmmCpuSwitchBsp)
      ensures switchBsp == (old(switchBsp) || SmmCpuSwitchBsp in old(operation))
      ensures |candidateBsp| == |old(candidateBsp)|
      ensures forall i :: 0 <= i < |candidateBsp| ==>
        candidateBsp[i] == (old(candidateBsp)[i] || old(operation)[i] == SmmCpuSwitchBsp)
    {
      var index := 0;
      while index < |processorId|
        invariant index <= |processorId| && Sized(Now())
        invariant forall i :: 0 <= i < |operation| ==>
          operation[i] == if i < index && old(operation)[i] == SmmCpuSwitchBsp then SmmCpuNone else old(operation)[i]
        invariant switchBsp == (old(switchBsp) || SmmCpuSwitchBsp in old(operation)[..index])
        invariant forall i :: 0 <= i < |candidateBsp| ==>
          candidateBsp[i] == (old(candidateBsp)[i] || (i < index && old(operation)[i] == SmmCpuSwitchBsp))
      {
        assert old(operation)[..index + 1] == old(operation)[..index] + [old(operation)[index]];
        if operation[index] == SmmCpuSwitchBsp {
          operation := operation[index := SmmCpuNone];
          switchBsp := true;
          candidateBsp := candidateBsp[index := true];
        }
        index := index + 1;
      }
      assert old(operation)[..index] == old(operation);
    }

    /** Retire the pending requests of one kind, changing the count by one for each. */
    method Retire(op: Operation, change: int)
      requires Sized(Now()) && op != SmmCpuNone
      modifies this`operation, this`numberOfCpus
      ensures Cleared(old(Now()), Now(), op)
      ensures numberOfCpus == old(numberOfCpus) + change * Sum(Pending(old(Now()), op))
    {
      var index := 0;
      while index < |processorId|
        invariant index <= |processorId| && Sized(Now())
        invariant forall i :: 0 <= i < |operation| ==>
          operation[i] == if i < index && old(operation)[i] == op then SmmCpuNone else old(operation)[i]
        invariant numberOfCpus + change * Sum(Pending(Now(), op)) == old(numberOfCpus)
          + change * Sum(Pending(old(Now()), op))
      {
        if operation[index] == op {
          RetireOne(Now(), index, op, change);
          operation := operation[index := SmmCpuNone];
          numberOfCpus := numberOfCpus + change;
        }
        index := index + 1;
      }
      SumZero(Pending(Now(), op));
    }
  }

  /** Requests of one kind are gone, the others are as they were. */
  ghost predicate Cleared(s: State, s': State, op: Operation) {
    |s'.operation| == |s.operation| && forall i {:trigger s'.operation[i]} :: 0 <= i < |s.operation| ==>
      s'.operation[i] == if s.operation[i] == op then SmmCpuNone else s.operation[i]
  }

  lemma OthersSame(s: State, s': State, op: Operation, other: Operation)
    requires Cleared(s, s', op) && other != op && other != SmmCpuNone
    ensures Pending(s', other) == Pending(s, other)
  {
  }

  lemma RetireOne(s: State, i: nat, op: Operation, change: int)
    requires i < |s.operation| && s.operation[i] == op && op != SmmCpuNone
    ensures var s' := s.(operation := s.operation[i := SmmCpuNone], numberOfCpus := s.numberOfCpus + change);
      s'.numberOfCpus + change * Sum(Pending(s', op)) == s.numberOfCpus + change * Sum(Pending(s, op))
  {
    var s1 := s.(operation := s.operation[i := SmmCpuNone]);
    var s' := s.(operation := s.operation[i := SmmCpuNone], numberOfCpus := s.numberOfCpus + change);
    PendingSet(s, i, SmmCpuNone, op);
    assert Pending(s', op) == Pending(s1, op);
    var n := Sum(Pending(s, op));
    assert change * (n - 1) == change * n - change;
  }
}
