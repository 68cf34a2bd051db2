/** Schedules in which the BSP, in relaxed mode, goes round its presence scan in vain while members are on their way. */
module RendezvousPolling {
  import opened Common
  import opened Sums
  import opened Rendezvous
  import opened RendezvousInvariant
  import opened RendezvousSafety
  import opened RendezvousTheorems
  import opened RendezvousProgress

  /** The BSP begins its presence scan again, with a member still missing. */
  ghost predicate VainStep(c: Config, s: State, s': State) {
    Sized(c, s) && exists i: nat {:trigger Polling(s, i)} :: i < c.n && Polling(s, i) && Next(c, s, i, Go) == Some(s')
  }

  /** Any step of a CPU in the run, when no SMI arrives and no new procedure is asked for. */
  ghost predicate PatientStep(c: Config, s: State, s': State) { WorkingStep(c, s, s') || VainStep(c, s, s') }

  ghost predicate Schedule(c: Config, tr: seq<State>) {
    |tr| > 0 && forall k {:trigger tr[k]} :: 0 < k < |tr| ==> PatientStep(c, tr[k - 1], tr[k])
  }

  /** The step moves the BSP's presence scan and changes nothing else. */
  ghost predicate Scanning(s: State, s': State) {
    && 0 <= s.leader < |s.cpu| && s.cpu[s.leader].t.pc.BspScan?
    && exists j: nat, found: nat {:trigger BspScan(j, found)} ::
         s' == Put(s, s.leader, Goto(s.cpu[s.leader], BspScan(j, found)))
  }

  /** A scan in vain changes nothing but the BSP's place in the scan, and there is another CPU that can move. */
  lemma VainChangesNothing(c: Config, s: State, s': State) returns (i: nat)
    requires Inv(c, s) && VainStep(c, s, s')
    ensures 0 <= s.leader && s.cpu[s.leader].t.pc.BspScan?
    ensures s' == Put(s, s.leader, Goto(s.cpu[s.leader], BspScan(c.n, 0))) && Inv(c, s') && Scanning(s, s')
    ensures i != s.leader && CanWork(c, s, i)
  {
    var b: nat :| b < c.n && Polling(s, b) && Next(c, s, b, Go) == Some(s');
    BspMoving(c, s, b);
    ScanEffect(c, s, b, Go, s');
    NextKeepsInv(c, s, b, Go, s');
    i := BlockedOn(c, s);
    GoesCanWork(c, s, i);
  }

  // ---------------------------------------------------------------- the measure without the scan

  /** The rank of a scan, wherever it is, is that of its beginning. */
  ghost function OuterWeight(c: Config, v: Cpu): int {
    if v.t.pc.BspScan? then LeaveRank(c) + 1 + c.n + 4 * v.run else Weight(c, v)
  }

  ghost function OuterWeights(c: Config, s: State): (xs: seq<int>)
    ensures |xs| == |s.cpu| && forall i {:trigger xs[i]} :: 0 <= i < |xs| ==> xs[i] == OuterWeight(c, s.cpu[i])
  {
    seq(|s.cpu|, i requires 0 <= i < |s.cpu| => OuterWeight(c, s.cpu[i]))
  }

  ghost function Outer(c: Config, s: State): int { Sum(OuterWeights(c, s)) }

  lemma OuterOne(c: Config, s: State, s': State, i: nat)
    requires i < |s.cpu| == |s'.cpu| && s'.cpu == s.cpu[i := s'.cpu[i]]
    ensures Outer(c, s') == Outer(c, s) - OuterWeight(c, s.cpu[i]) + OuterWeight(c, s'.cpu[i])
  {
    SumUpdate(OuterWeights(c, s), i, OuterWeight(c, s'.cpu[i]));
    assert OuterWeights(c, s') == OuterWeights(c, s)[i := OuterWeight(c, s'.cpu[i])];
  }

  /** A step that lowers the weights and does not go on scanning lowers the outer ones. */
  lemma DropsOuter(c: Config, s: State, s': State, i: nat, t: nat)
    requires Sized(c, s) && (OneDrops(c, s, s', i) || TwoDrop(c, s, s', i, t))
    requires s.cpu[i].t.pc.BspScan? ==> s.cpu[i].t.pc.j <= c.n
    ensures Outer(c, s') < Outer(c, s)
  {
    if OneDrops(c, s, s', i) {
      OuterOne(c, s, s', i);
    } else {
      var m := Put(s, i, s'.cpu[i]);
      OuterOne(c, s, m, i);
      OuterOne(c, m, s', t);
    }
  }

  lemma UnsyncOuter(c: Config, s: State, i: nat, a: Choice, s': State)
    requires c.Valid() && Sized(c, s) && i < c.n && s.cpu[i].t.pc.BspUnsync? && NextBsp(c, s, i, a) == Some(s')
    ensures Outer(c, s') < Outer(c, s)
  {
    var m := Put(s, i, Goto(s.cpu[i], Held));
    OuterOne(c, s, m, i);
    assert s' == EndRun(m.(inSync := false));
    assert OuterWeights(c, s') == OuterWeights(c, m);
  }

  lemma LockOuter(c: Config, s: State, i: nat, a: Choice, s': State)
    requires c.Valid() && Sized(c, s) && i < c.n && s.cpu[i].t.pc.BspLock? && NextBsp(c, s, i, a) == Some(s')
    requires s.counter <= c.n
    ensures Outer(c, s') < Outer(c, s)
  {
    var ap := if s.counter == 0 then 0 else s.counter - 1;
    assert s' == Put(s, i, Locked(c, s.cpu[i], ap)).(counter := LOCKED);
    LockRank(c, s.cpu[i], ap);
    OuterOne(c, s, s', i);
  }

  /** A step of the scan goes on in it, or ends it and lowers the measure. */
  lemma ScanOuter(c: Config, s: State, i: nat, a: Choice, s': State)
    requires Inv(c, s) && i < c.n && s.cpu[i].t.pc.BspScan? && NextBsp(c, s, i, a) == Some(s')
    ensures Scanning(s, s') || Outer(c, s') < Outer(c, s)
    ensures Scanning(s, s') ==> Outer(c, s') == Outer(c, s)
  {
    BspMoving(c, s, i);
    ScanEffect(c, s, i, a, s');
    OuterOne(c, s, s', i);
    var j, f := s.cpu[i].t.pc.j, s.cpu[i].t.pc.found;
    if j > 0 {
      assert s' == Put(s, i, Goto(s.cpu[i], BspScan(j - 1, if s.cpu[j - 1].present then f + 1 else f)));
    } else if f <= s.cpu[i].t.apCount {
      assert s' == Put(s, i, Goto(s.cpu[i], BspScan(c.n, 0)));
    } else {
      assert s'.cpu[i].t.pc == BspLeave;
    }
  }

  lemma BspOuter(c: Config, s: State, i: nat, a: Choice, s': State)
    requires Inv(c, s) && i < c.n && IsBspPc(s.cpu[i].t.pc) && NextBsp(c, s, i, a) == Some(s') && Works(s, i, a)
    requires !s.cpu[i].t.pc.BspScan?
    ensures Outer(c, s') < Outer(c, s)
  {
    BspMoving(c, s, i);
    if s.cpu[i].t.pc.BspUnsync? {
      UnsyncOuter(c, s, i, a, s');
    } else if s.cpu[i].t.pc.BspLock? {
      LockBound(c, s);
      LockOuter(c, s, i, a, s');
    } else {
      BspDrops(c, s, i, a, s');
      DropsOuter(c, s, s', i, Other(s.cpu[i].t));
    }
  }

  /** Every working step that is not one of the scan lowers the measure. */
  lemma WorkingOuter(c: Config, s: State, s': State)
    requires Inv(c, s) && WorkingStep(c, s, s')
    ensures if Scanning(s, s') then Outer(c, s') == Outer(c, s) else Outer(c, s') < Outer(c, s)
  {
    var i: nat, a :| i < c.n && Works(s, i, a) && Next(c, s, i, a) == Some(s');
    if s.cpu[i].t.pc.BspScan? {
      ScanOuter(c, s, i, a, s');
    } else {
      StepOuter(c, s, i, a, s');
      if Scanning(s, s') { ScanningSame(c, s, s'); }
    }
  }

  lemma ScanningSame(c: Config, s: State, s': State)
    requires Scanning(s, s')
    ensures Outer(c, s') == Outer(c, s)
  {
    OuterOne(c, s, s', s.leader);
  }

  lemma StepOuter(c: Config, s: State, i: nat, a: Choice, s': State)
    requires Inv(c, s) && Works(s, i, a) && Next(c, s, i, a) == Some(s') && !s.cpu[i].t.pc.BspScan?
    ensures Outer(c, s') < Outer(c, s)
  {
    if IsApPc(s.cpu[i].t.pc) {
      ApMoving(c, s, i);
      ApDrops(c, s, i, s');
      DropsOuter(c, s, s', i, if s.leader < 0 then 0 else s.leader);
    } else if IsBspPc(s.cpu[i].t.pc) {
      BspOuter(c, s, i, a, s');
    } else {
      EntryDrops(c, s, i, a, s');
      DropsOuter(c, s, s', i, 0);
    }
  }

  lemma PatientOuter(c: Config, s: State, s': State)
    requires Inv(c, s) && PatientStep(c, s, s')
    ensures Inv(c, s')
    ensures if Scanning(s, s') then Outer(c, s') == Outer(c, s) else Outer(c, s') < Outer(c, s)
  {
    if WorkingStep(c, s, s') {
      WorkingStepLowers(c, s, s');
      WorkingOuter(c, s, s');
    } else {
      var i := VainChangesNothing(c, s, s');
      ScanningSame(c, s, s');
    }
  }

  // ---------------------------------------------------------------- over whole schedules

  /** The steps of a schedule that are not of the presence scan. */
  ghost function Strides(tr: seq<State>): nat {
    if |tr| <= 1 then 0
    else Strides(tr[..|tr| - 1]) + if Scanning(tr[|tr| - 2], tr[|tr| - 1]) then 0 else 1
  }

  /** What the scans in vain cost: 2n + 3 steps each. */
  ghost function VainCost(c: Config, tr: seq<State>): nat {
    if |tr| <= 1 then 0
    else VainCost(c, tr[..|tr| - 1]) + if WorkingStep(c, tr[|tr| - 2], tr[|tr| - 1]) then 0 else 2 * c.n + 3
  }

  lemma SchedulePrefix(c: Config, tr: seq<State>)
    requires Schedule(c, tr) && |tr| > 1
    ensures Schedule(c, tr[..|tr| - 1]) && PatientStep(c, tr[|tr| - 2], tr[|tr| - 1])
  {
    var n := |tr| - 1;
    assert PatientStep(c, tr[n - 1], tr[n]);
    forall k | 0 < k < n ensures PatientStep(c, tr[..n][k - 1], tr[..n][k]) {
      assert PatientStep(c, tr[k - 1], tr[k]);
    }
  }

  lemma {:induction false} StridesDrop(c: Config, tr: seq<State>)
    requires Schedule(c, tr) && Inv(c, tr[0])
    ensures Inv(c, tr[|tr| - 1]) && Outer(c, tr[|tr| - 1]) + Strides(tr) <= Outer(c, tr[0])
  {
    var n := |tr| - 1;
    if n > 0 {
      SchedulePrefix(c, tr);
      StridesDrop(c, tr[..n]);
      PatientOuter(c, tr[n - 1], tr[n]);
    }
  }

  lemma OuterPositive(c: Config, s: State)
    requires Inv(c, s)
    ensures Outer(c, s) >= 0
  {
    forall i | 0 <= i < c.n ensures OuterWeights(c, s)[i] >= 0 {
      WeightPositive(c, s, i);
    }
    var zeros := seq(c.n, i => 0);
    SumZero(zeros);
    SumMonotone(zeros, OuterWeights(c, s));
  }

  /** However often the presence scan goes round in vain between them, a schedule has no more other steps than the
      measure of the state it starts from. */
  lemma StridesAreBounded(c: Config, tr: seq<State>)
    requires Schedule(c, tr) && Reachable(c, tr[0])
    ensures Strides(tr) <= Outer(c, tr[0])
  {
    ReachableInv(c, tr[0]);
    StridesDrop(c, tr);
    OuterPositive(c, tr[|tr| - 1]);
  }

  /** What a scan in vain can add to the measure. */
  lemma RestartRaises(c: Config, s: State, b: nat)
    requires Sized(c, s) && b < c.n && s.cpu[b].t.pc.BspScan?
    ensures Measure(c, Put(s, b, Goto(s.cpu[b], BspScan(c.n, 0)))) <= Measure(c, s) + 2 * c.n + 2
  {
    WeightOne(c, s, b, Goto(s.cpu[b], BspScan(c.n, 0)));
  }

  lemma PatientLowers(c: Config, s: State, s': State)
    requires Inv(c, s) && PatientStep(c, s, s')
    ensures Inv(c, s')
    ensures Measure(c, s') + 1 <= Measure(c, s) + if WorkingStep(c, s, s') then 0 else 2 * c.n + 3
  {
    if WorkingStep(c, s, s') {
      WorkingStepLowers(c, s, s');
    } else {
      var i := VainChangesNothing(c, s, s');
      RestartRaises(c, s, s.leader);
    }
  }

  lemma {:induction false} ScheduleLowers(c: Config, tr: seq<State>)
    requires Schedule(c, tr) && Inv(c, tr[0])
    ensures Inv(c, tr[|tr| - 1])
    ensures Measure(c, tr[|tr| - 1]) + |tr| - 1 <= Measure(c, tr[0]) + VainCost(c, tr)
  {
    var n := |tr| - 1;
    if n > 0 {
      SchedulePrefix(c, tr);
      ScheduleLowers(c, tr[..n]);
      PatientLowers(c, tr[n - 1], tr[n]);
    }
  }

  /** And each scan in vain makes it at most 2n + 3 steps longer. */
  lemma ScheduleIsFinite(c: Config, tr: seq<State>)
    requires Schedule(c, tr) && Reachable(c, tr[0])
    ensures |tr| - 1 <= Measure(c, tr[0]) + VainCost(c, tr)
  {
    ReachableInv(c, tr[0]);
    ScheduleLowers(c, tr);
    MeasurePositive(c, tr[|tr| - 1]);
  }

  /** Every schedule, with scans in vain or without, that has been carried on until no CPU but a scanning BSP can move
      has come to the quiet end of the run. */
  lemma EveryScheduleEnds(c: Config, tr: seq<State>) returns (k: nat)
    requires Schedule(c, tr) && Stuck(c, tr[|tr| - 1]) && Reachable(c, tr[0]) && 0 <= tr[0].leader
    ensures k < |tr| && Quiet(c, tr[k])
  {
    ReachableInv(c, tr[0]);
    k := QuietLater(c, tr, 0);
  }

  lemma {:induction false} QuietLater(c: Config, tr: seq<State>, j: nat) returns (k: nat)
    requires Schedule(c, tr) && Stuck(c, tr[|tr| - 1]) && j < |tr| && Inv(c, tr[j]) && 0 <= tr[j].leader
    ensures k < |tr| && Quiet(c, tr[k])
    decreases |tr| - j
  {
    if j + 1 == |tr| {
      NotStuck(c, tr[j]);
    }
    PatientOn(c, tr[j], tr[j + 1]);
    if Quiet(c, tr[j + 1]) {
      k := j + 1;
    } else {
      k := QuietLater(c, tr, j + 1);
    }
  }

  lemma NotStuck(c: Config, s: State)
    requires Inv(c, s) && 0 <= s.leader
    ensures !Stuck(c, s)
  {
    var i := NoDeadlock(c, s);
    assert Works(s, i, Go);
  }

  lemma PatientOn(c: Config, s: State, s': State)
    requires Inv(c, s) && 0 <= s.leader && PatientStep(c, s, s')
    ensures Inv(c, s') && (0 <= s'.leader || Quiet(c, s'))
  {
    if !WorkingStep(c, s, s') {
      var i := VainChangesNothing(c, s, s');
    } else {
      WorkingStepLowers(c, s, s');
      if s'.leader < 0 { LastStepIsQuiet(c, s, s'); }
    }
  }
}
