/** One whole run: from two CPUs outside SMM, an SMI, the election, a call, its procedure and the quiet end. */
module RendezvousServed {
  import opened Common
  import opened Rendezvous
  import opened RendezvousInvariant
  import opened RendezvousSafety
  import opened RendezvousTheorems
  import opened RendezvousProgress
  import opened RendezvousCalls

  // ---------------------------------------------------------------- paths

  /** The machine can go this way. */
  ghost predicate Path(c: Config, tr: seq<State>) {
    |tr| > 0 && forall k {:trigger StepAt(c, tr, k)} :: 0 < k < |tr| ==> StepAt(c, tr, k)
  }

  lemma Joined(c: Config, p: seq<State>, q: seq<State>)
    requires Path(c, p) && Path(c, q) && p[|p| - 1] == q[0]
    ensures Path(c, p + q[1..])
    ensures (p + q[1..])[0] == p[0] && (p + q[1..])[|p| + |q| - 2] == q[|q| - 1]
  {
    var r := p + q[1..];
    forall k | 0 < k < |r| ensures StepAt(c, r, k) {
      if k < |p| {
        assert StepAt(c, p, k);
      } else {
        assert StepAt(c, q, k - |p| + 1);
        assert r[k - 1] == q[k - |p|];
      }
    }
  }

  lemma OneStep(c: Config, i: nat, a: Choice, s: State, s': State)
    requires Sized(c, s) && i < c.n && Next(c, s, i, a) == Some(s')
    ensures Path(c, [s, s'])
  {
  }

  lemma AlonePath(c: Config, i: nat, tr: seq<State>)
    requires Alone(c, i, tr)
    ensures Path(c, tr)
  {
    forall k | 0 < k < |tr| ensures StepAt(c, tr, k) {
      assert Moves(c, i, tr[k - 1], tr[k]);
      assert Next(c, tr[k - 1], i, Go) == Some(tr[k]);
    }
  }

  lemma StretchPath(c: Config, tr: seq<State>)
    requires Stretch(c, tr)
    ensures Path(c, tr)
  {
    forall k | 0 < k < |tr| ensures StepAt(c, tr, k) {
      assert WorkingStep(c, tr[k - 1], tr[k]);
    }
  }

  /** What can be reached from a reachable state is reachable. */
  lemma PathReachable(c: Config, tr: seq<State>)
    requires Path(c, tr) && Reachable(c, tr[0]) && Sized(c, tr[|tr| - 1])
    ensures Reachable(c, tr[|tr| - 1])
  {
    var p :| Trace(c, p) && p[|p| - 1] == tr[0];
    forall k | 0 < k < |p| ensures StepAt(c, p, k) {}
    Joined(c, p, tr);
    var r := p + tr[1..];
    assert Trace(c, r) && r[|r| - 1] == tr[|tr| - 1];
  }

  // ---------------------------------------------------------------- into SMM

  /** Two steps of CPU i, one after the other. */
  lemma TwoSteps(c: Config, i: nat, a: Choice, s: State, s1: State, s2: State)
    requires Sized(c, s) && i < c.n && Next(c, s, i, a) == Some(s1)
    requires Sized(c, s1) && Next(c, s1, i, a) == Some(s2)
    ensures Path(c, [s, s1, s2])
  {
  }

  lemma ReadsIn(c: Config, s: State, i: nat) returns (tr: seq<State>)
    requires Sized(c, s) && i < c.n && s.cpu[i].t.pc.Outside? && (s.insideSmm || s.smiStatus)
    ensures Path(c, tr) && tr[0] == s
    ensures tr[|tr| - 1] == Put(s, i, Goto(s.cpu[i], CountIn(s.insideSmm)))
  {
    var s1 := Put(s, i, Goto(s.cpu[i], ReadInside(s.smiStatus)));
    var s2 := Put(s, i, Goto(s.cpu[i], CountIn(s.insideSmm)));
    assert s2.cpu == s1.cpu[i := s2.cpu[i]];
    TwoSteps(c, i, Go, s, s1, s2);
    tr := [s, s1, s2];
  }

  lemma Counted(c: Config, s: State, i: nat) returns (tr: seq<State>)
    requires Sized(c, s) && i < c.n && s.cpu[i].t.pc == CountIn(s.insideSmm) && !Closing(s) && s.counter != LOCKED
    ensures Path(c, tr) && tr[0] == s
    ensures var v := s.cpu[i];
      tr[|tr| - 1] == Put(s, i, v.(t := v.t.(pc := if s.insideSmm then ApReadMode else Elect), member := true,
                                   busy := false)).(counter := s.counter + 1)
  {
    var v := s.cpu[i];
    var s1 := Put(s, i, Goto(v, FreeOwnBusy(s.insideSmm)).(member := true)).(counter := s.counter + 1);
    var s2 := Put(s, i, v.(t := v.t.(pc := if s.insideSmm then ApReadMode else Elect), member := true,
                           busy := false)).(counter := s.counter + 1);
    assert s2.cpu == s1.cpu[i := s2.cpu[i]];
    TwoSteps(c, i, Go, s, s1, s2);
    tr := [s, s1, s2];
  }

  /** A CPU outside that finds an SMI or a run in progress is counted in, and releases its own Busy lock. */
  lemma CountsIn(c: Config, s: State, i: nat) returns (tr: seq<State>)
    requires Sized(c, s) && i < c.n && s.cpu[i].t.pc.Outside?
    requires (s.insideSmm || s.smiStatus) && !Closing(s) && s.counter != LOCKED
    ensures Path(c, tr) && tr[0] == s
    ensures var v := s.cpu[i];
      tr[|tr| - 1] == Put(s, i, v.(t := v.t.(pc := if s.insideSmm then ApReadMode else Elect), member := true,
                                   busy := false)).(counter := s.counter + 1)
  {
    var p := ReadsIn(c, s, i);
    var m := p[|p| - 1];
    var q := Counted(c, m, i);
    Joined(c, p, q);
    tr := p + q[1..];
    assert tr[|tr| - 1].cpu == s.cpu[i := tr[|tr| - 1].cpu[i]];
  }

  /** The first CPU that asks becomes the BSP and sets InsideSmm. */
  lemma Leads(c: Config, s: State, i: nat) returns (tr: seq<State>)
    requires Sized(c, s) && i < c.n && s.cpu[i].t.pc.Elect? && s.bspIndex == -1
    ensures Path(c, tr) && tr[0] == s
    ensures var v := s.cpu[i];
      tr[|tr| - 1] == Put(s, i, v.(t := v.t.(pc := BspPresent, mode := s.effMode)))
                      .(bspIndex := i, leader := i, insideSmm := true)
  {
    var p := Elected(c, s, i);
    var m := p[|p| - 1];
    var q := Enters(c, m, i);
    Joined(c, p, q);
    tr := p + q[1..];
    assert tr[|tr| - 1].cpu == s.cpu[i := tr[|tr| - 1].cpu[i]];
  }

  lemma Elected(c: Config, s: State, i: nat) returns (tr: seq<State>)
    requires Sized(c, s) && i < c.n && s.cpu[i].t.pc.Elect? && s.bspIndex == -1
    ensures Path(c, tr) && tr[0] == s
    ensures tr[|tr| - 1] == Put(s, i, Goto(s.cpu[i], BspReadMode)).(bspIndex := i, leader := i)
  {
    var s1 := Put(s, i, Goto(s.cpu[i], TestBsp)).(bspIndex := i, leader := i);
    var s2 := Put(s, i, Goto(s.cpu[i], BspReadMode)).(bspIndex := i, leader := i);
    assert s2.cpu == s1.cpu[i := s2.cpu[i]];
    TwoSteps(c, i, Go, s, s1, s2);
    tr := [s, s1, s2];
  }

  lemma Enters(c: Config, s: State, i: nat) returns (tr: seq<State>)
    requires Sized(c, s) && i < c.n && s.cpu[i].t.pc.BspReadMode?
    ensures Path(c, tr) && tr[0] == s
    ensures var v := s.cpu[i];
      tr[|tr| - 1] == Put(s, i, v.(t := v.t.(pc := BspPresent, mode := s.effMode))).(insideSmm := true)
  {
    var v := s.cpu[i];
    var s1 := Put(s, i, v.(t := v.t.(pc := BspEnter, mode := s.effMode)));
    var s2 := Put(s, i, v.(t := v.t.(pc := BspPresent, mode := s.effMode))).(insideSmm := true);
    assert s2.cpu == s1.cpu[i := s2.cpu[i]];
    TwoSteps(c, i, Go, s, s1, s2);
    tr := [s, s1, s2];
  }

  /** An AP that finds InsideSmm set marks itself present. */
  lemma Arrives(c: Config, s: State, i: nat) returns (tr: seq<State>)
    requires Sized(c, s) && i < c.n && s.cpu[i].t.pc.ApReadMode? && s.insideSmm
    ensures Path(c, tr) && tr[0] == s
    ensures var s' := tr[|tr| - 1];
      && |s'.cpu| == c.n && s' == Put(s, i, s'.cpu[i])
      && s'.cpu[i].present && s'.cpu[i].member == s.cpu[i].member && s'.cpu[i].accepted == s.cpu[i].accepted
  {
    var p := Looks(c, s, i);
    var m := p[|p| - 1];
    var q := Appears(c, m, i);
    Joined(c, p, q);
    tr := p + q[1..];
    assert tr[|tr| - 1].cpu == s.cpu[i := tr[|tr| - 1].cpu[i]];
  }

  lemma Looks(c: Config, s: State, i: nat) returns (tr: seq<State>)
    requires Sized(c, s) && i < c.n && s.cpu[i].t.pc.ApReadMode? && s.insideSmm
    ensures Path(c, tr) && tr[0] == s
    ensures var v := s.cpu[i]; tr[|tr| - 1] == Put(s, i, v.(t := v.t.(pc := ApReadBsp, mode := s.effMode)))
  {
    var v := s.cpu[i];
    var s1 := Put(s, i, v.(t := v.t.(pc := ApSpin, mode := s.effMode)));
    var s2 := Put(s, i, v.(t := v.t.(pc := ApReadBsp, mode := s.effMode)));
    assert s2.cpu == s1.cpu[i := s2.cpu[i]];
    TwoSteps(c, i, Go, s, s1, s2);
    tr := [s, s1, s2];
  }

  lemma Appears(c: Config, s: State, i: nat) returns (tr: seq<State>)
    requires Sized(c, s) && i < c.n && s.cpu[i].t.pc.ApReadBsp?
    ensures Path(c, tr) && tr[0] == s
    ensures var s' := tr[|tr| - 1];
      && |s'.cpu| == c.n && s' == Put(s, i, s'.cpu[i])
      && s'.cpu[i].present && s'.cpu[i].member == s.cpu[i].member && s'.cpu[i].accepted == s.cpu[i].accepted
  {
    var v := s.cpu[i];
    var t := v.t.(pc := ApArrive, bsp := s.bspIndex);
    var s1 := Put(s, i, v.(t := t));
    var s2 := Put(s, i, v.(t := t.(pc := if Early(c, t) then ApSignal(1) else ApWait(1)), present := true));
    assert s2.cpu == s1.cpu[i := s2.cpu[i]];
    TwoSteps(c, i, Go, s, s1, s2);
    tr := [s, s1, s2];
  }

  // ---------------------------------------------------------------- to the handlers

  ghost predicate SameAccepted(s: State, s': State) {
    |s'.cpu| == |s.cpu| && forall j :: 0 <= j < |s.cpu| ==> s'.cpu[j].accepted == s.cpu[j].accepted
  }

  /** The BSP of the run is b and is on its way to the handlers; t has arrived. */
  ghost predicate Gathering(c: Config, s: State, b: nat, t: nat) {
    && Inv(c, s) && s.leader == b && t < c.n && t != b && s.cpu[t].present
    && BeforeOwnBusy(c, s.cpu[b].t) && (Opening(s.cpu[b].t.pc) || !s.smiStatus)
  }

  /** The BSP has not cleared the SMI status yet. */
  ghost predicate Opening(pc: Pc) {
    pc.TestBsp? || pc.BspReadMode? || pc.BspEnter? || pc.BspPresent? || pc.BspClearStatus?
  }

  /** Before the handlers no AP runs a procedure or is on its way out. */
  lemma ApsWait(c: Config, s: State, b: nat, t: nat, i: nat)
    requires Gathering(c, s, b, t) && i < c.n && i != b
    ensures !s.cpu[i].t.pc.ApCall? && !s.cpu[i].t.pc.ApDepart? && !IsBspPc(s.cpu[i].t.pc)
  {
    assert CpuOk(c, ViewOf(c, s), i, s.cpu[i]);
    LeaderMoving(c, s);
    ApWaits(c, ViewOf(c, s), i, s.cpu[i]);
  }

  lemma ApWaits(c: Config, x: View, i: nat, v: Cpu)
    requires c.Valid() && CpuOk(c, x, i, v) && 0 <= x.leader && i != x.leader && BeforeOwnBusy(c, x.lb)
    requires BspPcOk(c, x.lb, x.leader)
    ensures !v.t.pc.ApCall? && !v.t.pc.ApDepart? && !IsBspPc(v.t.pc)
  {
  }

  lemma BspOnward(c: Config, s: State, b: nat, a: Choice, s': State)
    requires Inv(c, s) && s.leader == b && Next(c, s, b, a) == Some(s')
    requires var pc := s.cpu[b].t.pc; pc.TestBsp? || pc.BspReadMode? || pc.BspEnter? || pc.BspPresent?
    ensures |s'.cpu| == c.n && BeforeOwnBusy(c, s'.cpu[b].t) && Opening(s'.cpu[b].t.pc)
  {
  }

  lemma BspStarts(c: Config, s: State, b: nat, a: Choice, s': State)
    requires Sized(c, s) && s.leader == b && NextBsp(c, s, b, a) == Some(s') && BeforeOwnBusy(c, s.cpu[b].t)
    requires var pc := s.cpu[b].t.pc; pc.BspClearStatus? || pc.BspSync? || pc.BspLock?
    ensures |s'.cpu| == c.n && BeforeOwnBusy(c, s'.cpu[b].t)
  {
  }

  lemma BspGathers(c: Config, s: State, b: nat, a: Choice, s': State)
    requires Sized(c, s) && s.leader == b && NextBsp(c, s, b, a) == Some(s') && BeforeOwnBusy(c, s.cpu[b].t)
    requires s.cpu[b].t.pc.BspWait?
    ensures |s'.cpu| == c.n && BeforeOwnBusy(c, s'.cpu[b].t)
  {
  }

  lemma BspReleases(c: Config, s: State, b: nat, a: Choice, s': State)
    requires Sized(c, s) && s.leader == b && NextBsp(c, s, b, a) == Some(s') && BeforeOwnBusy(c, s.cpu[b].t)
    requires s.cpu[b].t.pc.BspCheck? || (s.cpu[b].t.pc.BspSignal? && s.cpu[b].t.pc.j - 1 != b)
    ensures |s'.cpu| == c.n && BeforeOwnBusy(c, s'.cpu[b].t)
  {
  }

  lemma BspKeepsOn(c: Config, s: State, b: nat, a: Choice, s': State)
    requires Inv(c, s) && s.leader == b && Next(c, s, b, a) == Some(s') && BeforeOwnBusy(c, s.cpu[b].t)
    requires !s.cpu[b].t.pc.BspOwnBusy?
    ensures |s'.cpu| == c.n && BeforeOwnBusy(c, s'.cpu[b].t)
    ensures Opening(s.cpu[b].t.pc) && !s.cpu[b].t.pc.BspClearStatus? ==> Opening(s'.cpu[b].t.pc)
  {
    LeaderMoving(c, s);
    var pc := s.cpu[b].t.pc;
    if pc.TestBsp? || pc.BspReadMode? || pc.BspEnter? || pc.BspPresent? {
      BspOnward(c, s, b, a, s');
    } else if pc.BspWait? {
      BspGathers(c, s, b, a, s');
    } else if pc.BspCheck? || pc.BspSignal? {
      BspReleases(c, s, b, a, s');
    } else {
      BspStarts(c, s, b, a, s');
    }
  }

  /** Any step before the handlers leaves the BSP on its way there, those present present, and accepts nothing. */
  lemma GatheringStep(c: Config, s: State, b: nat, t: nat, i: nat, s': State)
    requires Gathering(c, s, b, t) && !s.cpu[b].t.pc.BspOwnBusy? && i < c.n && Next(c, s, i, Go) == Some(s')
    ensures Gathering(c, s', b, t) && SameAccepted(s, s')
  {
    NextKeepsInv(c, s, i, Go, s');
    BspIndexIs(c, s, b);
    forall j | 0 <= j < c.n ensures Aside(s, s', i, j) { NextAside(c, s, i, Go, s', j); }
    if i == b {
      BspKeepsOn(c, s, b, Go, s');
    } else {
      ApsWait(c, s, b, t, i);
      assert Aside(s, s', i, b);
    }
    GatheringAside(c, s, b, t, i, s');
  }

  lemma GatheringAside(c: Config, s: State, b: nat, t: nat, i: nat, s': State)
    requires Sized(c, s) && i < c.n && b < c.n && t < c.n && t != b && s.leader == b == s.bspIndex
    requires forall j :: 0 <= j < c.n ==> Aside(s, s', i, j)
    requires s.cpu[t].present && BeforeOwnBusy(c, s.cpu[b].t)
    requires i != b ==> !s.cpu[i].t.pc.ApCall? && !s.cpu[i].t.pc.ApDepart? && !IsBspPc(s.cpu[i].t.pc)
    ensures s'.leader == b && |s'.cpu| == c.n && s'.cpu[t].present && SameAccepted(s, s')
    ensures s'.smiStatus == (s.smiStatus && !s.cpu[i].t.pc.BspClearStatus?)
  {
    assert Aside(s, s', i, t);
    forall j | 0 <= j < c.n ensures s'.cpu[j].accepted == s.cpu[j].accepted { assert Aside(s, s', i, j); }
  }

  lemma BspIndexIs(c: Config, s: State, b: nat)
    requires Inv(c, s) && s.leader == b && BeforeOwnBusy(c, s.cpu[b].t)
    ensures s.bspIndex == b
  {
  }

  /** The rest of the way to the BSP's Busy lock. */
  lemma {:induction false} ToTheLock(c: Config, s: State, b: nat, t: nat) returns (tr: seq<State>)
    requires Gathering(c, s, b, t)
    ensures Path(c, tr) && tr[0] == s
    ensures var s' := tr[|tr| - 1];
      Gathering(c, s', b, t) && s'.cpu[b].t.pc.BspOwnBusy? && SameAccepted(s, s')
    decreases Measure(c, s)
  {
    tr := [s];
    if !s.cpu[b].t.pc.BspOwnBusy? {
      var s' := OneNearer(c, s, b, t);
      var q := ToTheLock(c, s', b, t);
      Joined(c, [s, s'], q);
      tr := [s, s'] + q[1..];
    }
  }

  lemma OneNearer(c: Config, s: State, b: nat, t: nat) returns (s': State)
    requires Gathering(c, s, b, t) && !s.cpu[b].t.pc.BspOwnBusy?
    ensures Path(c, [s, s']) && Gathering(c, s', b, t) && SameAccepted(s, s')
    ensures 0 <= Measure(c, s') < Measure(c, s)
  {
    var i := NoDeadlock(c, s);
    s' := Next(c, s, i, Go).value;
    NearerBy(c, s, b, t, i, s');
  }

  lemma NearerBy(c: Config, s: State, b: nat, t: nat, i: nat, s': State)
    requires Gathering(c, s, b, t) && !s.cpu[b].t.pc.BspOwnBusy?
    requires i < c.n && Works(s, i, Go) && Next(c, s, i, Go) == Some(s')
    ensures Path(c, [s, s']) && Gathering(c, s', b, t) && SameAccepted(s, s')
    ensures 0 <= Measure(c, s') < Measure(c, s)
  {
    GatheringStep(c, s, b, t, i, s');
    MeasureDrops(c, s, i, Go, s');
    MeasurePositive(c, s');
    OneStep(c, i, Go, s, s');
  }

  /** A target that is there when the BSP is about to begin its handlers is free. */
  lemma TargetIsFree(c: Config, s: State, b: nat, t: nat)
    requires Gathering(c, s, b, t) && s.cpu[b].t.pc.BspOwnBusy?
    ensures !s.cpu[t].busy && !s.cpu[b].busy
  {
    assert CpuOk(c, ViewOf(c, s), t, s.cpu[t]);
  }

  /** The BSP takes its own Busy lock and an SMI handler calls SmmStartupThisAp or SmmBlockingStartupThisAp. */
  lemma HandlerCalls(c: Config, s: State, b: nat, req: Request) returns (tr: seq<State>)
    requires Sized(c, s) && b < c.n && s.cpu[b].t.pc.BspOwnBusy? && !s.cpu[b].busy && !req.late
    ensures Path(c, tr) && tr[0] == s
    ensures tr[|tr| - 1] == Put(s, b, Goto(s.cpu[b], BspStart(LookPresent, req)).(busy := true))
  {
    var s1 := Put(s, b, Goto(s.cpu[b], BspHandler).(busy := true));
    OneStep(c, b, Go, s, s1);
    var s2 := Put(s, b, Goto(s.cpu[b], BspStart(LookPresent, req)).(busy := true));
    assert s2.cpu == s1.cpu[b := s2.cpu[b]];
    OneStep(c, b, Start(req), s1, s2);
    Joined(c, [s, s1], [s1, s2]);
    tr := [s, s1] + [s1, s2][1..];
  }

  // ---------------------------------------------------------------- to the end

  /** No call is going on that has not handed its procedure over. */
  ghost predicate HandedOn(s: State) { forall i :: 0 <= i < |s.cpu| ==> !Handing(s.cpu[i].t.pc) }

  /** Without a new call nothing more is accepted. */
  lemma WorkingAccepts(c: Config, s: State, s': State)
    requires WorkingStep(c, s, s') && HandedOn(s)
    ensures SameAccepted(s, s') && HandedOn(s') && (!s.smiStatus ==> !s'.smiStatus)
  {
    var i: nat, a :| i < c.n && Works(s, i, a) && Next(c, s, i, a) == Some(s');
    NextAccepts(c, s, i, a, s');
  }

  lemma NextAccepts(c: Config, s: State, i: nat, a: Choice, s': State)
    requires Sized(c, s) && i < c.n && Works(s, i, a) && Next(c, s, i, a) == Some(s') && HandedOn(s)
    ensures SameAccepted(s, s') && HandedOn(s') && (!s.smiStatus ==> !s'.smiStatus)
  {
    forall j | 0 <= j < c.n ensures Aside(s, s', i, j) { NextAside(c, s, i, a, s', j); }
    NextHands(c, s, i, a, s');
    AsideAccepts(s, i, s');
  }

  lemma NextHands(c: Config, s: State, i: nat, a: Choice, s': State)
    requires Sized(c, s) && i < c.n && Works(s, i, a) && Next(c, s, i, a) == Some(s') && Aside(s, s', i, i)
    requires !Handing(s.cpu[i].t.pc)
    ensures !Handing(s'.cpu[i].t.pc)
  {
    if s.cpu[i].t.pc.BspHandler? || s.cpu[i].t.pc.BspTasks? { HandlersGoOn(c, s, i, a, s'); }
  }

  lemma AsideAccepts(s: State, i: nat, s': State)
    requires i < |s.cpu| == |s'.cpu| && (forall j :: 0 <= j < |s.cpu| ==> Aside(s, s', i, j)) && HandedOn(s)
    requires !Handing(s'.cpu[i].t.pc)
    ensures SameAccepted(s, s') && HandedOn(s') && (!s.smiStatus ==> !s'.smiStatus)
  {
    assert Aside(s, s', i, i);
    forall j | 0 <= j < |s.cpu| ensures s'.cpu[j].accepted == s.cpu[j].accepted && !Handing(s'.cpu[j].t.pc) {
      assert Aside(s, s', i, j);
    }
  }

  lemma HandlersGoOn(c: Config, s: State, i: nat, a: Choice, s': State)
    requires Sized(c, s) && i < c.n && Works(s, i, a) && NextBsp(c, s, i, a) == Some(s')
    requires s.cpu[i].t.pc.BspHandler? || s.cpu[i].t.pc.BspTasks?
    ensures |s'.cpu| == c.n && !Handing(s'.cpu[i].t.pc)
  {
  }

  lemma {:induction false} StretchAccepts(c: Config, tr: seq<State>)
    requires Stretch(c, tr) && HandedOn(tr[0])
    ensures SameAccepted(tr[0], tr[|tr| - 1]) && HandedOn(tr[|tr| - 1])
    ensures !tr[0].smiStatus ==> !tr[|tr| - 1].smiStatus
  {
    var n := |tr| - 1;
    if n > 0 {
      StretchPrefix(c, tr);
      StretchAccepts(c, tr[..n]);
      WorkingAccepts(c, tr[n - 1], tr[n]);
    }
  }

  lemma OnlyTheBspHands(c: Config, s: State)
    requires Reachable(c, s) && 0 <= s.leader && !Handing(s.cpu[s.leader].t.pc)
    ensures HandedOn(s)
  {
    ReachableInv(c, s);
    forall i | 0 <= i < c.n ensures !Handing(s.cpu[i].t.pc) {
      if Handing(s.cpu[i].t.pc) { BspIsLeader(c, s, i); }
    }
  }

  // ---------------------------------------------------------------- the whole run

  /** The BSP and one AP meet. */
  lemma TwoMeet(c: Config, s: State, b: nat, t: nat) returns (tr: seq<State>)
    requires c.Valid() && Sized(c, s) && b < c.n && t < c.n && b != t
    requires s.smiStatus && s.counter == 0 && s.bspIndex == -1 && s.leader == -1 && !s.insideSmm
    requires s.cpu[b].t.pc.Outside? && s.cpu[t].t.pc.Outside?
    ensures Path(c, tr) && tr[0] == s
    ensures var s' := tr[|tr| - 1];
      && Sized(c, s') && s'.leader == b && s'.cpu[b].t.pc.BspPresent? && s'.cpu[t].present && SameAccepted(s, s')
  {
    var p1 := CountsIn(c, s, b);
    var p2 := Leads(c, p1[|p1| - 1], b);
    Joined(c, p1, p2);
    var p := p1 + p2[1..];
    var m := p[|p| - 1];
    assert m.cpu[t] == s.cpu[t] && SameAccepted(s, m);
    var q := Follows(c, m, t);
    Joined(c, p, q);
    tr := p + q[1..];
  }

  lemma Follows(c: Config, s: State, t: nat) returns (tr: seq<State>)
    requires Sized(c, s) && t < c.n && s.cpu[t].t.pc.Outside? && s.insideSmm && !Closing(s) && s.counter != LOCKED
    ensures Path(c, tr) && tr[0] == s
    ensures var s' := tr[|tr| - 1];
      && Sized(c, s') && s'.leader == s.leader && s'.cpu[t].present && SameAccepted(s, s')
      && forall j :: 0 <= j < c.n && j != t ==> s'.cpu[j] == s.cpu[j]
  {
    var q1 := CountsIn(c, s, t);
    var q2 := Arrives(c, q1[|q1| - 1], t);
    Joined(c, q1, q2);
    tr := q1 + q2[1..];
  }

  /** From there to a call for that AP. */
  lemma TheyCall(c: Config, s: State, b: nat, t: nat, req: Request) returns (tr: seq<State>)
    requires Reachable(c, s) && b < c.n && t < c.n && b != t && req.target == t && !req.late
    requires s.leader == b && s.cpu[b].t.pc.BspPresent? && s.cpu[t].present
    ensures Path(c, tr) && tr[0] == s
    ensures var s' := tr[|tr| - 1];
      && Sized(c, s') && s'.leader == b && s'.cpu[b].t.pc == BspStart(LookPresent, req)
      && s'.cpu[t].present && !s'.cpu[t].busy && SameAccepted(s, s') && !s'.smiStatus
  {
    var p := TheyGather(c, s, b, t);
    var q := HandlerCalls(c, p[|p| - 1], b, req);
    Joined(c, p, q);
    tr := p + q[1..];
  }

  lemma TheyGather(c: Config, s: State, b: nat, t: nat) returns (tr: seq<State>)
    requires Reachable(c, s) && b < c.n && t < c.n && b != t
    requires s.leader == b && s.cpu[b].t.pc.BspPresent? && s.cpu[t].present
    ensures Path(c, tr) && tr[0] == s
    ensures var s' := tr[|tr| - 1];
      && Sized(c, s') && s'.leader == b && s'.cpu[b].t.pc.BspOwnBusy? && !s'.cpu[b].busy
      && s'.cpu[t].present && !s'.cpu[t].busy && SameAccepted(s, s') && !s'.smiStatus
  {
    ReachableInv(c, s);
    tr := ToTheLock(c, s, b, t);
    TargetIsFree(c, tr[|tr| - 1], b, t);
  }

  /** The call is served: its procedure is handed over and runs, once. */
  lemma TheyServe(c: Config, s: State, req: Request) returns (tr: seq<State>)
    requires Calling(c, s) && s.cpu[s.leader].t.pc.req == req
    requires req.target < c.n && req.target != s.leader && s.cpu[req.target].present && !s.cpu[req.target].busy
    ensures Path(c, tr) && tr[0] == s
    ensures var s' := tr[|tr| - 1];
      && Sized(c, s') && 0 <= s'.leader && HandedOn(s') && s'.smiStatus == s.smiStatus
      && s'.cpu[req.target].accepted == s.cpu[req.target].accepted + [req.task]
      && forall j :: 0 <= j < c.n && j != req.target ==> s'.cpu[j].accepted == s.cpu[j].accepted
  {
    tr := CallGoesThrough(c, s);
    AlonePath(c, s.leader, tr);
    PathReachable(c, tr);
    OnlyTheBspHands(c, tr[5]);
  }

  /** What has been accepted runs, and the run ends. */
  lemma TheyEnd(c: Config, s: State) returns (tr: seq<State>)
    requires Reachable(c, s) && 0 <= s.leader && HandedOn(s) && !s.smiStatus
    ensures Path(c, tr) && tr[0] == s
    ensures var s' := tr[|tr| - 1];
      && Quiet(c, s') && !s'.smiStatus && forall j :: 0 <= j < c.n ==> s'.cpu[j].ran == s.cpu[j].accepted
  {
    tr := RunCompletes(c, s);
    StretchPath(c, tr);
    StretchAccepts(c, tr);
  }

  lemma QuietAccepted(c: Config, s: State, j: nat)
    requires Quiet(c, s) && j < c.n
    ensures s.cpu[j].accepted == s.cpu[j].ran
  {
  }

  /** From any quiet state with two CPUs outside SMM there is a run, begun by an SMI, in which an SMI handler on the one
      has any procedure run by the other with either form of the call: when the machine is quiet again, it has run
      there once, nothing else has run anywhere, and the SMI is no longer pending. */
  lemma ACallIsServed(c: Config, s: State, b: nat, req: Request) returns (tr: seq<State>)
    requires Reachable(c, s) && Quiet(c, s) && b < c.n && req.target < c.n && b != req.target && !req.late
    requires s.cpu[b].t.pc.Outside? && s.cpu[req.target].t.pc.Outside?
    ensures Path(c, tr) && tr[0] == s && Quiet(c, tr[|tr| - 1]) && !tr[|tr| - 1].smiStatus
    ensures var s' := tr[|tr| - 1];
      && s'.cpu[req.target].ran == s.cpu[req.target].ran + [req.task]
      && forall j :: 0 <= j < c.n && j != req.target ==> s'.cpu[j].ran == s.cpu[j].ran
  {
    var t := req.target;
    var s1 := s.(smiStatus := true);
    var p1 := [s, s1];
    assert Path(c, p1);
    var p2 := TwoMeet(c, s1, b, t);
    Joined(c, p1, p2);
    var p := p1 + p2[1..];
    PathReachable(c, p);
    var m := p[|p| - 1];
    var q := FromTheMeeting(c, m, b, req);
    Joined(c, p, q);
    tr := p + q[1..];
    forall j | 0 <= j < c.n ensures s.cpu[j].accepted == s.cpu[j].ran { QuietAccepted(c, s, j); }
  }

  lemma FromTheMeeting(c: Config, s: State, b: nat, req: Request) returns (tr: seq<State>)
    requires Reachable(c, s) && b < c.n && req.target < c.n && b != req.target && !req.late
    requires s.leader == b && s.cpu[b].t.pc.BspPresent? && s.cpu[req.target].present
    ensures Path(c, tr) && tr[0] == s
    ensures var s' := tr[|tr| - 1];
      && Quiet(c, s') && !s'.smiStatus
      && s'.cpu[req.target].ran == s.cpu[req.target].accepted + [req.task]
      && forall j :: 0 <= j < c.n && j != req.target ==> s'.cpu[j].ran == s.cpu[j].accepted
  {
    var p := TheyCall(c, s, b, req.target, req);
    PathReachable(c, p);
    var m := p[|p| - 1];
    var q := TheyServe(c, m, req);
    PathReachable(c, q);
    var m' := q[|q| - 1];
    var r := TheyEnd(c, m');
    Joined(c, q, r);
    Joined(c, p, q + r[1..]);
    tr := p + (q + r[1..])[1..];
  }
}
