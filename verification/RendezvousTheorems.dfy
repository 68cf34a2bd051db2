/** What the rendezvous guarantees, in every state reachable from a quiet one, over any number of runs. */
module RendezvousTheorems {
  import opened Common
  import opened Sums
  import opened Rendezvous
  import opened RendezvousInvariant
  import opened RendezvousSafety

  ghost predicate StepAt(c: Config, tr: seq<State>, k: nat)
    requires 0 < k < |tr|
  {
    Sized(c, tr[k - 1]) && Step(c, tr[k - 1], tr[k])
  }

  /** A history: it begins quiet and moves by steps of the CPUs and of the environment. */
  ghost predicate Trace(c: Config, tr: seq<State>) {
    c.Valid() && |tr| > 0 && Quiet(c, tr[0]) && forall k :: 0 < k < |tr| ==> StepAt(c, tr, k)
  }

  ghost predicate Reachable(c: Config, s: State) {
    c.Valid() && Sized(c, s) && exists tr :: Trace(c, tr) && tr[|tr| - 1] == s
  }

  lemma PrefixStep(c: Config, tr: seq<State>, front: seq<State>, k: nat)
    requires front <= tr && 0 < k < |front| && StepAt(c, tr, k)
    ensures StepAt(c, front, k)
  {
    assert front[k] == tr[k] && front[k - 1] == tr[k - 1];
  }

  lemma {:induction false} TraceInv(c: Config, tr: seq<State>)
    requires Trace(c, tr)
    ensures Inv(c, tr[|tr| - 1])
  {
    var n := |tr| - 1;
    if n == 0 {
      QuietIsInv(c, tr[0]);
    } else {
      var front := tr[..n];
      forall k | 0 < k < |front| ensures StepAt(c, front, k) { PrefixStep(c, tr, front, k); }
      TraceInv(c, front);
      assert StepAt(c, tr, n);
      StepKeepsInv(c, tr[n - 1], tr[n]);
    }
  }

  lemma ReachableInv(c: Config, s: State)
    requires Reachable(c, s)
    ensures Inv(c, s)
  {
    var tr :| Trace(c, tr) && tr[|tr| - 1] == s;
    TraceInv(c, tr);
  }

  // ---------------------------------------------------------------- barriers

  /** When WaitForAllAPs returns for the k-th time, every AP of the run has signalled exactly k times
      and has got past k - 1 waits only. */
  lemma BarrierHolds(c: Config, s: State, i: nat)
    requires Reachable(c, s) && 0 <= s.leader && s.cpu[s.leader].t.pc.BspWait? && s.cpu[s.leader].t.pc.left == 0
    requires i < c.n && i != s.leader && s.cpu[i].member
    ensures Sig(c, s.cpu[i].t) == s.cpu[s.leader].t.pc.k
    ensures Took(c, s.cpu[i].t) == s.cpu[s.leader].t.pc.k - 1
  {
    ReachableInv(c, s);
    WaitFindsAll(c, s);
    assert CpuOk(c, ViewOf(c, s), i, s.cpu[i]);
  }

  /** At any moment the APs of a run are within one barrier of the BSP and of each other:
      an AP has at least the signals the BSP has collected, at most one more, and has passed no wait
      the BSP has not released it from. */
  lemma Lockstep(c: Config, s: State, i: nat)
    requires Reachable(c, s) && 0 <= s.leader && i < c.n && i != s.leader && s.cpu[i].member
    ensures var lb := s.cpu[s.leader].t;
      && Done(c, lb) <= Sig(c, s.cpu[i].t) <= Done(c, lb) + 1
      && Took(c, s.cpu[i].t) <= Given(c, lb, i) <= Done(c, lb)
      && Sig(c, s.cpu[i].t) <= Took(c, s.cpu[i].t) + 1
  {
    ReachableInv(c, s);
    WithinOneBarrier(c, s, i);
  }

  lemma WithinOneBarrier(c: Config, s: State, i: nat)
    requires Inv(c, s) && 0 <= s.leader && i < c.n && i != s.leader && s.cpu[i].member
    ensures var lb := s.cpu[s.leader].t;
      && Done(c, lb) <= Sig(c, s.cpu[i].t) <= Done(c, lb) + 1
      && Took(c, s.cpu[i].t) <= Given(c, lb, i) <= Done(c, lb)
      && Sig(c, s.cpu[i].t) <= Took(c, s.cpu[i].t) + 1
  {
    assert CpuOk(c, ViewOf(c, s), i, s.cpu[i]);
  }

  /** An AP takes the exit token of round E only after every AP of the run has signalled round E,
      and so for every later round: the BSP had to finish its k-th wait first. */
  lemma PassedBarrier(c: Config, s: State, i: nat, j: nat)
    requires Reachable(c, s) && 0 <= s.leader && i < c.n && j < c.n && i != s.leader && j != s.leader
    requires s.cpu[i].member && s.cpu[j].member
    ensures Took(c, s.cpu[i].t) <= Sig(c, s.cpu[j].t)
  {
    Lockstep(c, s, i);
    Lockstep(c, s, j);
  }

  /** In traditional mode, and with MTRRs to configure, the SMI handlers begin when the members are fixed and all there,
      each after one barrier signal, or three with MTRRs, and after no token, or two. */
  lemma GatheredAtHandlers(c: Config, s: State, i: nat)
    requires Reachable(c, s) && 0 <= s.leader && s.cpu[s.leader].t.pc.BspHandler?
    requires s.cpu[s.leader].t.mode == Traditional || c.mtrr
    requires i < c.n && i != s.leader && s.cpu[i].member
    ensures s.counter == LOCKED && s.cpu[i].present
    ensures Sig(c, s.cpu[i].t) == (if c.mtrr then 3 else 1) && Took(c, s.cpu[i].t) == if c.mtrr then 2 else 0
  {
    ReachableInv(c, s);
    GatheredCpu(c, s, i);
  }

  lemma GatheredCpu(c: Config, s: State, i: nat)
    requires Inv(c, s) && 0 <= s.leader && s.cpu[s.leader].t.pc.BspHandler? && Early(c, s.cpu[s.leader].t)
    requires i < c.n && i != s.leader && s.cpu[i].member
    ensures s.counter == LOCKED && s.cpu[i].present
    ensures Sig(c, s.cpu[i].t) == c.E() && Took(c, s.cpu[i].t) == c.E() - 1
  {
    assert CpuOk(c, ViewOf(c, s), i, s.cpu[i]);
    GatheredLocal(c, ViewOf(c, s), i, s.cpu[i]);
  }

  lemma GatheredLocal(c: Config, x: View, i: nat, v: Cpu)
    requires CpuOk(c, x, i, v) && v.member && 0 <= x.leader && i != x.leader
    requires x.lb.pc.BspHandler? && Early(c, x.lb)
    ensures v.present && Sig(c, v.t) == c.E() && Took(c, v.t) == c.E() - 1
  {
  }

  /** In relaxed mode without MTRRs to configure, CPUs are still counted in while the handlers run. */
  lemma OpenAtHandlers(c: Config, s: State)
    requires Reachable(c, s) && 0 <= s.leader && s.cpu[s.leader].t.pc.BspHandler?
    requires s.cpu[s.leader].t.mode == Relaxed && !c.mtrr
    ensures s.counter == Sum(Members(s)) < LOCKED
  {
    ReachableInv(c, s);
    SumBounds(Members(s), 0, 1);
  }

  /** A run has three barrier rounds, or six with MTRRs to configure: that many signals of each AP. */
  lemma RoundsAtEnd(c: Config, s: State, i: nat)
    requires Reachable(c, s) && 0 <= s.leader && s.cpu[s.leader].t.pc.BspUnelect?
    requires i < c.n && i != s.leader && s.cpu[i].member
    ensures s.cpu[i].t.pc.Held? && Sig(c, s.cpu[i].t) == (if c.mtrr then 6 else 3)
    ensures Took(c, s.cpu[i].t) == if c.mtrr then 5 else 2
  {
    ReachableInv(c, s);
    LastBarrier(c, s, i);
  }

  // ---------------------------------------------------------------- what a step leaves alone

  /** What a step of CPU i does not do: move another CPU j, change a membership other than by counting
      i in or by ending the run, or write InsideSmm and the SMI status in any but the steps meant for it. */
  ghost predicate Aside(s: State, s': State, i: nat, j: nat) {
    && |s'.cpu| == |s.cpu| && i < |s.cpu| && j < |s.cpu|
    && (j != i ==> s'.cpu[j].t == s.cpu[j].t)
    && (s'.cpu[j].member == s.cpu[j].member
       || (i == j && s.cpu[i].t.pc.CountIn? && s.counter != LOCKED && s'.cpu[i].member)
        || s.cpu[i].t.pc.BspUnsync?)
    && (s'.cpu[i].t.pc.ReadInside? ==> s'.cpu[i].t.pc.valid == s.smiStatus)
    && (s'.insideSmm == s.insideSmm || (s.cpu[i].t.pc.BspEnter? && s'.insideSmm) || s.cpu[i].t.pc.BspLeave?)
    && AsideWork(s, s', i, j)
  }

  /** A procedure is accepted, run, or a CPU marked absent, in the steps meant for it only. */
  ghost predicate AsideWork(s: State, s': State, i: nat, j: nat)
    requires |s'.cpu| == |s.cpu| && i < |s.cpu| && j < |s.cpu|
  {
    var pc := s.cpu[i].t.pc;
    && (s'.cpu[j].accepted == s.cpu[j].accepted || (pc.BspStart? && pc.stage == PutToken))
    && (s'.cpu[j].ran == s.cpu[j].ran || (i == j && pc.ApCall?))
    && (s.cpu[j].present && !s'.cpu[j].present ==> i == j && (pc.ApDepart? || pc.BspAbsent?))
    && s'.nextMode == s.nextMode
    && s'.effMode == (if pc.BspSetMode? then s.nextMode else s.effMode)
    && s'.smiStatus == (s.smiStatus && !pc.BspClearStatus?)
    && (s'.leader == s.leader || pc.BspUnsync? || (pc.Elect? && s.bspIndex == -1))
    && (Handing(s'.cpu[i].t.pc) ==> Handing(pc) || pc.BspHandler? || pc.BspTasks?)
  }

  /** A call that has not handed its procedure over yet. */
  ghost predicate Handing(pc: Pc) { pc.BspStart? && pc.stage != AwaitBusy && pc.stage != DropBusy }

  lemma ArrivingApAside(c: Config, s: State, i: nat, s': State, j: nat)
    requires Sized(c, s) && i < c.n && j < c.n && NextAp(c, s, i) == Some(s')
    requires var pc := s.cpu[i].t.pc; pc.ApReadMode? || pc.ApSpin? || pc.ApReadBsp? || pc.ApArrive?
    ensures Aside(s, s', i, j)
  {
  }

  lemma MeetingApAside(c: Config, s: State, i: nat, s': State, j: nat)
    requires Sized(c, s) && i < c.n && j < c.n && NextAp(c, s, i) == Some(s')
    requires var pc := s.cpu[i].t.pc; pc.ApSignal? || pc.ApWait?
    ensures Aside(s, s', i, j)
  {
  }

  lemma WorkingApAside(c: Config, s: State, i: nat, s': State, j: nat)
    requires Sized(c, s) && i < c.n && j < c.n && NextAp(c, s, i) == Some(s')
    requires var pc := s.cpu[i].t.pc; pc.ApCheck? || pc.ApCall? || pc.ApFree? || pc.ApDepart?
    ensures Aside(s, s', i, j)
  {
  }

  lemma OpeningBspAside(c: Config, s: State, i: nat, a: Choice, s': State, j: nat)
    requires Sized(c, s) && i < c.n && j < c.n && NextBsp(c, s, i, a) == Some(s')
    requires var pc := s.cpu[i].t.pc;
      pc.BspReadMode? || pc.BspEnter? || pc.BspPresent? || pc.BspClearStatus? || pc.BspSync? || pc.BspLock?
    ensures Aside(s, s', i, j)
  {
  }

  lemma ScanAside(c: Config, s: State, i: nat, a: Choice, s': State, j: nat)
    requires Sized(c, s) && i < c.n && j < c.n && NextBsp(c, s, i, a) == Some(s')
    requires var pc := s.cpu[i].t.pc; pc.BspScan?
    ensures Aside(s, s', i, j)
  {
    OnePutAside(s, i, s'.cpu[i], j);
  }

  lemma WaitDoneAside(c: Config, s: State, i: nat, a: Choice, s': State, j: nat)
    requires Sized(c, s) && i < c.n && j < c.n && NextBsp(c, s, i, a) == Some(s')
    requires var pc := s.cpu[i].t.pc; pc.BspWait? && pc.left == 0
    ensures Aside(s, s', i, j)
  {
    OnePutAside(s, i, Goto(s.cpu[i], AfterWait(c, s.cpu[i].t.pc.k)), j);
  }

  lemma WaitTokenAside(c: Config, s: State, i: nat, a: Choice, s': State, j: nat)
    requires Sized(c, s) && i < c.n && j < c.n && NextBsp(c, s, i, a) == Some(s')
    requires var pc := s.cpu[i].t.pc; pc.BspWait? && pc.left > 0
    ensures Aside(s, s', i, j)
  {
    var v := s.cpu[i];
    OnePutAside(s, i, Goto(v, BspWait(v.t.pc.k, v.t.pc.left - 1)).(run := v.run - 1), j);
  }

  lemma CheckAside(c: Config, s: State, i: nat, a: Choice, s': State, j: nat)
    requires Sized(c, s) && i < c.n && j < c.n && NextBsp(c, s, i, a) == Some(s')
    requires var pc := s.cpu[i].t.pc; pc.BspCheck?
    ensures Aside(s, s', i, j)
  {
    OnePutAside(s, i, s'.cpu[i], j);
  }

  lemma ReleaseAside(c: Config, s: State, i: nat, a: Choice, s': State, j: nat)
    requires Sized(c, s) && i < c.n && j < c.n && NextBsp(c, s, i, a) == Some(s')
    requires var pc := s.cpu[i].t.pc; pc.BspSignal?
    ensures Aside(s, s', i, j)
  {
    var pc := s.cpu[i].t.pc;
    var v := Goto(s.cpu[i], BspCheck(pc.k, pc.j - 1));
    OnePutAside(s, i, v, j);
    SignalAside(s, Put(s, i, v), i, pc.j - 1, j);
  }

  lemma SignalAside(s: State, m: State, i: nat, t: nat, j: nat)
    requires i < |s.cpu| == |m.cpu| && j < |s.cpu| && t < |s.cpu| && Aside(s, m, i, j)
    ensures Aside(s, Signal(m, t), i, j)
  {
  }

  lemma HandlingBspAside(c: Config, s: State, i: nat, a: Choice, s': State, j: nat)
    requires Sized(c, s) && i < c.n && j < c.n && NextBsp(c, s, i, a) == Some(s')
    requires var pc := s.cpu[i].t.pc; pc.BspOwnBusy? || pc.BspHandler? || pc.BspTasks? || pc.BspLeave?
    ensures Aside(s, s', i, j)
  {
  }

  lemma DrainLookAside(c: Config, s: State, i: nat, a: Choice, s': State, j: nat)
    requires Sized(c, s) && i < c.n && j < c.n && NextBsp(c, s, i, a) == Some(s')
    requires var pc := s.cpu[i].t.pc; pc.BspDrain?
    ensures Aside(s, s', i, j)
  {
    OnePutAside(s, i, s'.cpu[i], j);
  }

  lemma DrainLockAside(c: Config, s: State, i: nat, a: Choice, s': State, j: nat)
    requires Sized(c, s) && i < c.n && j < c.n && NextBsp(c, s, i, a) == Some(s')
    requires var pc := s.cpu[i].t.pc; pc.BspDrainTake? || pc.BspDrainDrop?
    ensures Aside(s, s', i, j)
  {
  }

  lemma ClosingBspAside(c: Config, s: State, i: nat, a: Choice, s': State, j: nat)
    requires Sized(c, s) && i < c.n && j < c.n && NextBsp(c, s, i, a) == Some(s')
    requires var pc := s.cpu[i].t.pc; pc.BspSetMode? || pc.BspAbsent? || pc.BspUnelect? || pc.BspReset? || pc.BspUnsync?
    ensures Aside(s, s', i, j)
  {
  }

  lemma ClaimAside(s: State, i: nat, a: Choice, s': State, req: Request, back: Pc, j: nat)
    requires i < |s.cpu| && j < |s.cpu| && s.cpu[i].t.pc.BspStart? && req.target < |s.cpu| && req.target != i
    requires var stage := s.cpu[i].t.pc.stage; stage == TakeBusy
    requires NextTarget(s, i, a, req, back) == Some(s')
    requires back == BspTasks || back == BspHandler
    ensures Aside(s, s', i, j)
  {
    var w := s.cpu[req.target];
    if a == Skip || w.busy {
      OnePutAside(s, i, Goto(s.cpu[i], back), j);
    } else {
      TwoPutsAside(s, i, Goto(s.cpu[i], BspStart(PutProcedure, req)), req.target, w.(busy := true, job := Claimed), j);
    }
  }

  lemma OnePutAside(s: State, i: nat, v: Cpu, j: nat)
    requires i < |s.cpu| && j < |s.cpu| && v.member == s.cpu[i].member && !v.t.pc.ReadInside?
    requires v.accepted == s.cpu[i].accepted && v.ran == s.cpu[i].ran && v.present == s.cpu[i].present
    requires !s.cpu[i].t.pc.BspSetMode? && !s.cpu[i].t.pc.BspClearStatus?
    requires Handing(v.t.pc) ==> Handing(s.cpu[i].t.pc)
    ensures Aside(s, Put(s, i, v), i, j)
  {
  }

  lemma TwoPutsAside(s: State, i: nat, v: Cpu, t: nat, w: Cpu, j: nat)
    requires i < |s.cpu| && t < |s.cpu| && t != i && j < |s.cpu|
    requires v.member == s.cpu[i].member && w.member == s.cpu[t].member && w.t == s.cpu[t].t
    requires v.accepted == s.cpu[i].accepted && v.ran == s.cpu[i].ran && v.present == s.cpu[i].present
    requires w.accepted == s.cpu[t].accepted && w.ran == s.cpu[t].ran && w.present == s.cpu[t].present
    requires !v.t.pc.ReadInside? && !s.cpu[i].t.pc.BspSetMode? && !s.cpu[i].t.pc.BspClearStatus?
    requires Handing(v.t.pc) ==> Handing(s.cpu[i].t.pc)
    ensures Aside(s, Put(Put(s, i, v), t, w), i, j)
  {
  }

  lemma FillAside(s: State, i: nat, a: Choice, s': State, req: Request, back: Pc, j: nat)
    requires i < |s.cpu| && j < |s.cpu| && s.cpu[i].t.pc.BspStart? && req.target < |s.cpu| && req.target != i
    requires var stage := s.cpu[i].t.pc.stage; stage == PutProcedure || stage == PutParameter
    requires NextTarget(s, i, a, req, back) == Some(s')
    requires back == BspTasks || back == BspHandler
    ensures Aside(s, s', i, j)
  {
  }

  lemma HandAside(s: State, i: nat, a: Choice, s': State, req: Request, back: Pc, j: nat)
    requires i < |s.cpu| && j < |s.cpu| && s.cpu[i].t.pc.BspStart? && req.target < |s.cpu| && req.target != i
    requires var stage := s.cpu[i].t.pc.stage; stage == PutToken || stage == AwaitBusy || stage == DropBusy
    requires NextTarget(s, i, a, req, back) == Some(s')
    requires back == BspTasks || back == BspHandler
    ensures Aside(s, s', i, j)
  {
  }

  lemma StartAside(c: Config, s: State, i: nat, a: Choice, s': State, j: nat)
    requires Sized(c, s) && i < c.n && j < c.n && s.cpu[i].t.pc.BspStart? && NextStart(c, s, i, a) == Some(s')
    ensures Aside(s, s', i, j)
  {
    var req := s.cpu[i].t.pc.req;
    var back := if req.late then BspTasks else BspHandler;
    match s.cpu[i].t.pc.stage
    case LookPresent =>
    case TakeBusy => ClaimAside(s, i, a, s', req, back, j);
    case PutProcedure | PutParameter => FillAside(s, i, a, s', req, back, j);
    case PutToken | AwaitBusy | DropBusy => HandAside(s, i, a, s', req, back, j);
  }

  lemma ApAside(c: Config, s: State, i: nat, s': State, j: nat)
    requires Sized(c, s) && i < c.n && j < c.n && NextAp(c, s, i) == Some(s')
    ensures Aside(s, s', i, j)
  {
    match s.cpu[i].t.pc
    case ApReadMode | ApSpin | ApReadBsp | ApArrive => ArrivingApAside(c, s, i, s', j);
    case ApSignal(_) | ApWait(_) => MeetingApAside(c, s, i, s', j);
    case ApCheck | ApCall | ApFree | ApDepart => WorkingApAside(c, s, i, s', j);
    case _ =>
  }

  lemma BspAside(c: Config, s: State, i: nat, a: Choice, s': State, j: nat)
    requires Sized(c, s) && i < c.n && j < c.n && NextBsp(c, s, i, a) == Some(s')
    ensures Aside(s, s', i, j)
  {
    match s.cpu[i].t.pc
    case BspReadMode | BspEnter | BspPresent | BspClearStatus | BspSync | BspLock => OpeningBspAside(c, s, i, a, s', j);
    case BspScan(_, _) => ScanAside(c, s, i, a, s', j);
    case BspWait(_, left) =>
      if left == 0 { WaitDoneAside(c, s, i, a, s', j); } else { WaitTokenAside(c, s, i, a, s', j); }
    case BspCheck(_, _) => CheckAside(c, s, i, a, s', j);
    case BspSignal(_, _) => ReleaseAside(c, s, i, a, s', j);
    case BspOwnBusy | BspHandler | BspTasks | BspLeave => HandlingBspAside(c, s, i, a, s', j);
    case BspDrain(_) => DrainLookAside(c, s, i, a, s', j);
    case BspDrainTake(_) | BspDrainDrop(_) => DrainLockAside(c, s, i, a, s', j);
    case BspSetMode | BspAbsent | BspUnelect | BspReset | BspUnsync => ClosingBspAside(c, s, i, a, s', j);
    case BspStart(_, _) => StartAside(c, s, i, a, s', j);
    case _ =>
  }

  lemma EntryAside(c: Config, s: State, i: nat, a: Choice, s': State, j: nat)
    requires Sized(c, s) && i < c.n && j < c.n && NextEntry(c, s, i, a) == Some(s')
    ensures Aside(s, s', i, j)
  {
    match s.cpu[i].t.pc
    case Outside | ReadInside(_) | CountIn(_) => CountingAside(c, s, i, a, s', j);
    case FreeOwnBusy(_) | Held => JoiningAside(c, s, i, a, s', j);
    case Elect | TestBsp => ElectingAside(c, s, i, a, s', j);
    case _ =>
  }

  lemma CountingAside(c: Config, s: State, i: nat, a: Choice, s': State, j: nat)
    requires Sized(c, s) && i < c.n && j < c.n && NextEntry(c, s, i, a) == Some(s')
    requires var pc := s.cpu[i].t.pc; pc.Outside? || pc.ReadInside? || pc.CountIn?
    ensures Aside(s, s', i, j)
  {
  }

  lemma JoiningAside(c: Config, s: State, i: nat, a: Choice, s': State, j: nat)
    requires Sized(c, s) && i < c.n && j < c.n && NextEntry(c, s, i, a) == Some(s')
    requires var pc := s.cpu[i].t.pc; pc.FreeOwnBusy? || pc.Held?
    ensures Aside(s, s', i, j)
  {
  }

  lemma ElectingAside(c: Config, s: State, i: nat, a: Choice, s': State, j: nat)
    requires Sized(c, s) && i < c.n && j < c.n && NextEntry(c, s, i, a) == Some(s')
    requires var pc := s.cpu[i].t.pc; pc.Elect? || pc.TestBsp?
    ensures Aside(s, s', i, j)
  {
  }

  // ---------------------------------------------------------------- membership

  /** LockdownSemaphore fixes the members: ApCount is their number without the BSP. */
  lemma LockedMembers(c: Config, s: State)
    requires Reachable(c, s) && 0 <= s.leader && LockedPc(c, s.cpu[s.leader].t)
    ensures s.cpu[s.leader].member && s.counter == LOCKED
    ensures s.cpu[s.leader].t.apCount + 1 == Sum(Members(s))
  {
    ReachableInv(c, s);
    LeaderIsMember(c, s);
  }

  /** A CPU becomes a member only by counting itself in while the counter is open, and the only step
      that ends a membership is the BSP's last one. */
  lemma MembersOnlyJoin(c: Config, s: State, i: nat, a: Choice, s': State, j: nat)
    requires Sized(c, s) && i < c.n && Next(c, s, i, a) == Some(s') && j < c.n && !s.cpu[i].t.pc.BspUnsync?
    ensures |s'.cpu| == c.n && (s.cpu[j].member ==> s'.cpu[j].member)
    ensures s'.cpu[j].member && !s.cpu[j].member ==> i == j && s.cpu[j].t.pc.CountIn? && s.counter != LOCKED
  {
    NextAside(c, s, i, a, s', j);
  }

  /** A CPU that finds the counter locked changes nothing but its own position. */
  lemma RefusedChangesNothing(c: Config, s: State, i: nat, a: Choice, s': State)
    requires Reachable(c, s) && i < c.n && Next(c, s, i, a) == Some(s')
    requires s.cpu[i].t.pc.CountIn? && s.counter == LOCKED
    ensures s' == Put(s, i, Goto(s.cpu[i], Held)) && s.inSync
  {
    ReachableInv(c, s);
    if s.leader < 0 { CounterFits(c, s); }
    else if s.counter == Sum(Members(s)) { CounterFits(c, s); }
  }

  /** All members that have read the sync mode have read the same one. */
  lemma OneMode(c: Config, s: State, i: nat, j: nat)
    requires Reachable(c, s) && i < c.n && j < c.n && s.cpu[i].member && s.cpu[j].member
    requires i != s.leader && j != s.leader && HasMode(s.cpu[i].t.pc) && HasMode(s.cpu[j].t.pc)
    ensures s.cpu[i].t.mode == s.cpu[j].t.mode
    ensures 0 <= s.leader && Entered(s.cpu[s.leader].t.pc) ==> s.cpu[i].t.mode == s.cpu[s.leader].t.mode
  {
    ReachableInv(c, s);
    assert CpuOk(c, ViewOf(c, s), i, s.cpu[i]);
    assert CpuOk(c, ViewOf(c, s), j, s.cpu[j]);
  }

  /** A member still waiting for InsideSmm can always see it once the BSP has set it:
      the BSP does not clear it before every member has arrived. */
  lemma WindowNotMissed(c: Config, s: State, i: nat)
    requires Reachable(c, s) && 0 <= s.leader && Entered(s.cpu[s.leader].t.pc)
    requires i < c.n && s.cpu[i].t.pc.ApSpin?
    ensures s.insideSmm
  {
    ReachableInv(c, s);
    SpinnerIsCounted(c, s, i);
  }

  lemma SpinnerIsCounted(c: Config, s: State, i: nat)
    requires Inv(c, s) && 0 <= s.leader && Entered(s.cpu[s.leader].t.pc) && i < c.n && s.cpu[i].t.pc.ApSpin?
    ensures s.insideSmm
  {
    assert CpuOk(c, ViewOf(c, s), i, s.cpu[i]);
  }

  // ---------------------------------------------------------------- the invalid-SMI exit

  /** A run whose SMI status was set when it began and whose BSP has not cleared InsideSmm yet. */
  ghost predicate Covered(s: State) {
    && (s.smiStatus || s.insideSmm)
    && (forall i :: 0 <= i < |s.cpu| && s.cpu[i].t.pc == ReadInside(false) ==> s.insideSmm)
  }

  /** While an SMI is being served, a CPU that reads the SMI status and InsideSmm goes on to be counted. */
  lemma CoveredOn(c: Config, s: State, i: nat, a: Choice, s': State)
    requires Inv(c, s) && Covered(s) && i < c.n && Next(c, s, i, a) == Some(s') && !s.cpu[i].t.pc.BspLeave?
    ensures Covered(s')
    ensures s.cpu[i].t.pc.ReadInside? ==> |s'.cpu| == c.n && s'.cpu[i].t.pc.CountIn?
  {
    if s.cpu[i].t.pc.BspClearStatus? { BspIsLeader(c, s, i); }
    forall j | 0 <= j < c.n ensures Aside(s, s', i, j) { NextAside(c, s, i, a, s', j); }
    CoveredAside(s, i, s');
    if s.cpu[i].t.pc.ReadInside? { ReadInsideMove(c, s, i, a, s'); }
  }

  /** A step other than the BSP's clearing InsideSmm. */
  ghost predicate Onward(c: Config, s: State, s': State)
    requires Sized(c, s)
  {
    || (exists i: nat, a :: i < c.n && !s.cpu[i].t.pc.BspLeave? && Next(c, s, i, a) == Some(s'))
    || s' == s.(smiStatus := true)
    || (exists m :: s' == s.(nextMode := m))
  }

  /** What happens from an SMI on, up to the clearing of InsideSmm: tr[0] is the state in which its status is set,
      while no CPU is on its way out for want of one. */
  ghost predicate Service(c: Config, s: State, tr: seq<State>) {
    && Reachable(c, s) && |tr| > 0 && tr[0] == s.(smiStatus := true)
    && (forall i :: 0 <= i < c.n && s.cpu[i].t.pc == ReadInside(false) ==> s.insideSmm)
    && forall k {:trigger OnwardAt(c, tr, k)} :: 0 < k < |tr| ==> OnwardAt(c, tr, k)
  }

  ghost predicate OnwardAt(c: Config, tr: seq<State>, k: nat)
    requires 0 < k < |tr|
  {
    Sized(c, tr[k - 1]) && Onward(c, tr[k - 1], tr[k])
  }

  lemma OnwardKeeps(c: Config, s: State, s': State)
    requires Inv(c, s) && Covered(s) && Onward(c, s, s')
    ensures Inv(c, s') && Covered(s')
  {
    if i: nat, a :| i < c.n && !s.cpu[i].t.pc.BspLeave? && Next(c, s, i, a) == Some(s') {
      NextKeepsInv(c, s, i, a, s');
      CoveredOn(c, s, i, a, s');
    } else {
      EnvironmentKeepsInv(c, s, s');
    }
  }

  /** An SMI starts a time that is covered. */
  lemma SmiCovers(c: Config, s: State)
    requires Inv(c, s) && forall i :: 0 <= i < c.n && s.cpu[i].t.pc == ReadInside(false) ==> s.insideSmm
    ensures Inv(c, s.(smiStatus := true)) && Covered(s.(smiStatus := true))
  {
    EnvironmentKeepsInv(c, s, s.(smiStatus := true));
  }

  /** What every step keeps holds throughout. */
  lemma {:induction false} Throughout(P: State -> bool, tr: seq<State>, k: nat)
    requires k < |tr| && P(tr[0]) && forall j {:trigger tr[j]} :: 0 < j < |tr| && P(tr[j - 1]) ==> P(tr[j])
    ensures P(tr[k])
  {
    if k > 0 {
      Throughout(P, tr, k - 1);
    }
  }

  ghost predicate CoveredInv(c: Config, s: State) { Inv(c, s) && Covered(s) }

  lemma StaysCovered(c: Config, tr: seq<State>, k: nat)
    requires k < |tr| && CoveredInv(c, tr[0])
    requires forall k {:trigger OnwardAt(c, tr, k)} :: 0 < k < |tr| ==> OnwardAt(c, tr, k)
    ensures CoveredInv(c, tr[k])
  {
    forall j | 0 < j < |tr| && CoveredInv(c, tr[j - 1]) ensures CoveredInv(c, tr[j]) {
      NextCovered(c, tr, j);
    }
    Throughout(s => CoveredInv(c, s), tr, k);
  }

  lemma NextCovered(c: Config, tr: seq<State>, k: nat)
    requires 0 < k < |tr| && OnwardAt(c, tr, k) && Inv(c, tr[k - 1]) && Covered(tr[k - 1])
    ensures Inv(c, tr[k]) && Covered(tr[k])
  {
    OnwardKeeps(c, tr[k - 1], tr[k]);
  }

  lemma ServiceCovered(c: Config, s: State, tr: seq<State>, k: nat)
    requires Service(c, s, tr) && k < |tr|
    ensures Inv(c, tr[k]) && Covered(tr[k])
  {
    ReachableInv(c, s);
    SmiCovers(c, s);
    StaysCovered(c, tr, k);
  }

  /** From an SMI until the BSP clears InsideSmm no CPU takes the invalid-SMI exit: each one that samples the status and
      InsideSmm in that time goes on to be counted. */
  lemma NoInvalidExit(c: Config, s: State, tr: seq<State>, k: nat, i: nat, a: Choice, s': State)
    requires Service(c, s, tr) && k < |tr| && i < c.n && Sized(c, tr[k]) && Next(c, tr[k], i, a) == Some(s')
    requires tr[k].cpu[i].t.pc.ReadInside?
    ensures |s'.cpu| == c.n && s'.cpu[i].t.pc.CountIn?
  {
    ServiceCovered(c, s, tr, k);
    CoveredOn(c, tr[k], i, a, s');
  }

  /** With no SMI pending and no run in progress a CPU that has sampled both goes back out, and nothing else changes. */
  lemma InvalidExit(c: Config, s: State, i: nat, a: Choice)
    requires Sized(c, s) && i < c.n && s.cpu[i].t.pc == ReadInside(false) && !s.insideSmm
    ensures var v := s.cpu[i]; Next(c, s, i, a) == Some(s.(cpu := s.cpu[i := v.(t := v.t.(pc := Outside))]))
  {
  }

  lemma CoveredAside(s: State, i: nat, s': State)
    requires i < |s.cpu| && (forall j :: 0 <= j < |s.cpu| ==> Aside(s, s', i, j))
    requires Covered(s) && !s.cpu[i].t.pc.BspLeave? && (s.cpu[i].t.pc.BspClearStatus? ==> s.insideSmm)
    ensures Covered(s')
  {
    assert Aside(s, s', i, i);
    forall j | 0 <= j < |s'.cpu| && s'.cpu[j].t.pc == ReadInside(false) ensures s'.insideSmm {
      assert Aside(s, s', i, j);
    }
  }

  lemma ReadInsideMove(c: Config, s: State, i: nat, a: Choice, s': State)
    requires Sized(c, s) && i < c.n && NextEntry(c, s, i, a) == Some(s') && s.cpu[i].t.pc.ReadInside? && Covered(s)
    ensures |s'.cpu| == c.n && s'.cpu[i].t.pc.CountIn?
  {
  }

  lemma NextAside(c: Config, s: State, i: nat, a: Choice, s': State, j: nat)
    requires Sized(c, s) && i < c.n && j < c.n && Next(c, s, i, a) == Some(s')
    ensures Aside(s, s', i, j)
  {
    var pc := s.cpu[i].t.pc;
    if IsApPc(pc) {
      ApAside(c, s, i, s', j);
    } else if IsBspPc(pc) {
      BspAside(c, s, i, a, s', j);
    } else {
      EntryAside(c, s, i, a, s', j);
    }
  }

  // ---------------------------------------------------------------- scheduled work

  /** Nothing runs that was not accepted, nothing twice, nothing out of order: at most the last
      accepted procedure is still to run. */
  lemma WorkInOrder(c: Config, s: State, i: nat)
    requires Reachable(c, s) && i < c.n
    ensures s.cpu[i].accepted == s.cpu[i].ran || s.cpu[i].accepted == s.cpu[i].ran + [s.cpu[i].task]
  {
    ReachableInv(c, s);
    assert CpuOk(c, ViewOf(c, s), i, s.cpu[i]);
  }

  /** Before the BSP clears InsideSmm everything accepted has run. */
  lemma WorkDone(c: Config, s: State, i: nat)
    requires Reachable(c, s) && i < c.n && 0 <= s.leader && s.cpu[s.leader].t.pc.BspLeave?
    ensures s.cpu[i].accepted == s.cpu[i].ran
  {
    ReachableInv(c, s);
    assert CpuOk(c, ViewOf(c, s), i, s.cpu[i]);
  }

  /** The blocking form returns only after its procedure has run. */
  lemma BlockingReturns(c: Config, s: State, a: Choice, s': State)
    requires Reachable(c, s) && 0 <= s.leader && s.cpu[s.leader].t.pc.BspStart?
      && s.cpu[s.leader].t.pc.stage == DropBusy
    requires Next(c, s, s.leader, a) == Some(s')
    ensures var t := s.cpu[s.leader].t.pc.req.target;
      t < c.n && |s'.cpu| == c.n && s'.cpu[t].accepted == s'.cpu[t].ran && s'.cpu[t].job == NoJob
  {
    ReachableInv(c, s);
    DropBusyTarget(c, s);
    DropBusyEffect(c, s, s.leader, a, s');
  }

  lemma DropBusyEffect(c: Config, s: State, i: nat, a: Choice, s': State)
    requires Sized(c, s) && i < c.n && s.cpu[i].t.pc.BspStart? && s.cpu[i].t.pc.stage == DropBusy
    requires s.cpu[i].t.pc.req.target < c.n && s.cpu[i].t.pc.req.target != i && NextBsp(c, s, i, a) == Some(s')
    ensures |s'.cpu| == c.n && s'.cpu[s.cpu[i].t.pc.req.target] == s.cpu[s.cpu[i].t.pc.req.target].(busy := false)
  {
  }

  lemma DropBusyTarget(c: Config, s: State)
    requires Inv(c, s) && 0 <= s.leader && s.cpu[s.leader].t.pc.BspStart? && s.cpu[s.leader].t.pc.stage == DropBusy
    ensures var t := s.cpu[s.leader].t.pc.req.target;
      t < c.n && t != s.leader && s.cpu[t].accepted == s.cpu[t].ran && s.cpu[t].job == NoJob
  {
    TouchedIsAp(c, s, s.cpu[s.leader].t.pc.req.target);
  }

  /** A procedure runs on its target with the procedure and parameter given to the call, while the
      target's Busy lock is held: the token in hand is a procedure's exactly when InsideSmm is set. */
  lemma TokenMeaning(c: Config, s: State, i: nat)
    requires Reachable(c, s) && i < c.n && s.cpu[i].t.pc.ApCheck?
    ensures 0 <= s.leader && (s.insideSmm <==> s.cpu[i].job == Taken)
    ensures s.insideSmm ==> s.cpu[i].busy && s.cpu[i].accepted == s.cpu[i].ran + [s.cpu[i].task]
    ensures !s.insideSmm ==> s.cpu[i].accepted == s.cpu[i].ran && c.E() <= Given(c, s.cpu[s.leader].t, i)
  {
    ReachableInv(c, s);
    TokenInHand(c, s, i);
  }

  lemma TokenInHand(c: Config, s: State, i: nat)
    requires Inv(c, s) && i < c.n && s.cpu[i].t.pc.ApCheck?
    ensures 0 <= s.leader && (s.insideSmm <==> s.cpu[i].job == Taken)
    ensures s.insideSmm ==> s.cpu[i].busy && s.cpu[i].accepted == s.cpu[i].ran + [s.cpu[i].task]
    ensures !s.insideSmm ==> s.cpu[i].accepted == s.cpu[i].ran && c.E() <= Given(c, s.cpu[s.leader].t, i)
  {
    assert CpuOk(c, ViewOf(c, s), i, s.cpu[i]);
  }

  /** A call that is accepted hands over its own procedure and parameter. */
  lemma AcceptedTask(c: Config, s: State, a: Choice, s': State)
    requires Reachable(c, s) && 0 <= s.leader && s.cpu[s.leader].t.pc.BspStart?
      && s.cpu[s.leader].t.pc.stage == PutToken
    requires Next(c, s, s.leader, a) == Some(s')
    ensures |s'.cpu| == c.n && HandedOver(c, s, s', s.leader, s.cpu[s.leader].t.pc.req)
  {
    ReachableInv(c, s);
    HandOverTarget(c, s);
    HandOverEffect(c, s, s.leader, a, s');
  }

  /** The target of the request has it as its next task, with one more token on its Run. */
  ghost predicate HandedOver(c: Config, s: State, s': State, b: nat, req: Request) {
    && req.target < c.n == |s.cpu| == |s'.cpu| && req.target != b
    && s'.cpu[req.target].accepted == s'.cpu[req.target].ran + [req.task]
    && s'.cpu[req.target].task == req.task
    && s'.cpu[req.target].run == s.cpu[req.target].run + 1
  }

  lemma HandOverTarget(c: Config, s: State)
    requires Inv(c, s) && 0 <= s.leader && s.cpu[s.leader].t.pc.BspStart? && s.cpu[s.leader].t.pc.stage == PutToken
    ensures var req := s.cpu[s.leader].t.pc.req;
      && req.target < c.n && req.target != s.leader && s.cpu[req.target].run < LOCKED
      && s.cpu[req.target].accepted == s.cpu[req.target].ran && s.cpu[req.target].task == req.task
  {
    var t := s.cpu[s.leader].t.pc.req.target;
    TouchedIsAp(c, s, t);
    RunFits(c, s, t);
  }

  lemma HandOverEffect(c: Config, s: State, i: nat, a: Choice, s': State)
    requires Sized(c, s) && i < c.n && s.cpu[i].t.pc.BspStart? && s.cpu[i].t.pc.stage == PutToken
      && NextBsp(c, s, i, a) == Some(s')
    requires var req := s.cpu[i].t.pc.req;
      && req.target < c.n && req.target != i && s.cpu[req.target].run < LOCKED
      && s.cpu[req.target].accepted == s.cpu[req.target].ran && s.cpu[req.target].task == req.task
    ensures |s'.cpu| == c.n && HandedOver(c, s, s', i, s.cpu[i].t.pc.req)
  {
  }

  // ---------------------------------------------------------------- the end of a run

  /** The BSP's last write leaves the machine quiet, so the next run starts as the first one did. */
  lemma RunEndsQuiet(c: Config, s: State, a: Choice, s': State)
    requires Reachable(c, s) && 0 <= s.leader && s.cpu[s.leader].t.pc.BspUnsync? && Next(c, s, s.leader, a) == Some(s')
    ensures Quiet(c, s')
  {
    ReachableInv(c, s);
    BspUnsyncStep(c, s, a, s');
  }

  /** The ASSERT at the end of SmiRendezvous: a CPU that has finished finds its Run at zero. */
  lemma RunIsZeroAtEnd(c: Config, s: State, i: nat)
    requires Reachable(c, s) && i < c.n && (s.cpu[i].t.pc.Held? || s.cpu[i].t.pc.BspUnsync?)
    ensures s.cpu[i].run == 0
  {
    ReachableInv(c, s);
    FinishedRun(c, s, i);
  }

  lemma FinishedRun(c: Config, s: State, i: nat)
    requires Inv(c, s) && i < c.n && (s.cpu[i].t.pc.Held? || s.cpu[i].t.pc.BspUnsync?)
    ensures s.cpu[i].run == 0
  {
    if s.cpu[i].t.pc.BspUnsync? {
      BspIsLeader(c, s, i);
      LastBarrier(c, s, i);
    } else {
      HeldRun(c, s, i);
    }
  }

  lemma HeldRun(c: Config, s: State, i: nat)
    requires Inv(c, s) && i < c.n && s.cpu[i].t.pc.Held?
    ensures s.cpu[i].run == 0
  {
    assert CpuOk(c, ViewOf(c, s), i, s.cpu[i]);
  }

  // ---------------------------------------------------------------- the mode of the next run

  /** The mode asked for changes by a request only, the mode in force by the BSP's step only, to the one asked for. */
  lemma ModeStep(c: Config, s: State, s': State)
    requires Sized(c, s) && Step(c, s, s')
    ensures s'.effMode == s.effMode
         || (s'.effMode == s.nextMode == s'.nextMode && exists i :: 0 <= i < c.n && s.cpu[i].t.pc.BspSetMode?)
  {
    if i: nat, a :| i < c.n && Next(c, s, i, a) == Some(s') {
      NextAside(c, s, i, a, s', i);
    }
  }

  lemma {:induction false} LastRequest(c: Config, tr: seq<State>, r: nat, k: nat)
    requires r <= k < |tr| && forall q {:trigger tr[q]} :: r < q <= k ==> tr[q].nextMode == tr[q - 1].nextMode
    ensures tr[k].nextMode == tr[r].nextMode
  {
    if r < k { LastRequest(c, tr, r, k - 1); }
  }

  lemma {:induction false} ModeStays(c: Config, tr: seq<State>, k: nat, j: nat)
    requires k <= j < |tr| && forall q {:trigger StepAt(c, tr, q)} :: k < q <= j ==> StepAt(c, tr, q)
    requires forall q, i :: k <= q < j && 0 <= i < |tr[q].cpu| ==> !tr[q].cpu[i].t.pc.BspSetMode?
    ensures tr[j].effMode == tr[k].effMode
  {
    if k < j {
      ModeStays(c, tr, k, j - 1);
      assert StepAt(c, tr, j);
      ModeStep(c, tr[j - 1], tr[j]);
    }
  }

  /** What the BSP of a run does at its end to the mode of the runs to come: step k of the history is that of the BSP,
      m is the mode last asked for before it.  Until the next BSP gets there, m is in force. */
  lemma NextRunsMode(c: Config, tr: seq<State>, r: nat, k: nat, b: nat, a: Choice, j: nat, m: Mode)
    requires 0 < r < k <= j < |tr| && tr[r] == tr[r - 1].(nextMode := m)
    requires forall q {:trigger StepAt(c, tr, q)} :: 0 < q < |tr| ==> StepAt(c, tr, q)
    requires forall q {:trigger tr[q]} :: r < q < k ==> tr[q].nextMode == tr[q - 1].nextMode
    requires Sized(c, tr[k - 1]) && b < c.n && tr[k - 1].cpu[b].t.pc.BspSetMode?
      && Next(c, tr[k - 1], b, a) == Some(tr[k])
    requires forall q, i :: k <= q < j && 0 <= i < |tr[q].cpu| ==> !tr[q].cpu[i].t.pc.BspSetMode?
    ensures tr[j].effMode == m
  {
    LastRequest(c, tr, r, k - 1);
    TakesUpMode(c, tr[k - 1], b, a, tr[k]);
    ModeStays(c, tr, k, j);
  }

  lemma TakesUpMode(c: Config, s: State, b: nat, a: Choice, s': State)
    requires Sized(c, s) && b < c.n && s.cpu[b].t.pc.BspSetMode? && Next(c, s, b, a) == Some(s')
    ensures s'.effMode == s.nextMode
  {
    NextAside(c, s, b, a, s', b);
  }

  /** A CPU of a run takes the mode in force when it reads it. */
  lemma ReadsMode(c: Config, s: State, i: nat, a: Choice, s': State)
    requires Sized(c, s) && i < c.n && Next(c, s, i, a) == Some(s')
    requires s.cpu[i].t.pc.ApReadMode? || s.cpu[i].t.pc.BspReadMode?
    ensures |s'.cpu| == c.n && s'.cpu[i].t.mode == s.effMode
  {
  }
}
