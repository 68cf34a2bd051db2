/** The invariant of the rendezvous machine. */
module RendezvousInvariant {
  import opened Sums
  import opened Rendezvous

  // ---------------------------------------------------------------- where the BSP is

  ghost predicate IsBspPc(pc: Pc) {
    || pc.BspReadMode? || pc.BspEnter? || Entered(pc)
  }

  /** The SMI handlers, the drain loop and the remaining tasks. */
  ghost predicate InHandlers(pc: Pc) {
    pc.BspHandler? || pc.BspStart? || pc.BspDrain? || pc.BspDrainTake? || pc.BspDrainDrop? || pc.BspTasks?
  }

  /** The BSP has set InsideSmm in this run. */
  ghost predicate Entered(pc: Pc) {
    || pc.BspPresent? || pc.BspClearStatus? || pc.BspSync? || pc.BspLock? || pc.BspScan? || pc.BspWait? || pc.BspCheck?
    || pc.BspSignal? || pc.BspOwnBusy? || InHandlers(pc) || pc.BspLeave? || pc.BspSetMode? || pc.BspAbsent?
    || pc.BspUnelect? || pc.BspReset? || pc.BspUnsync?
  }

  /** Barrier rounds the BSP has completed: WaitForAllAPs calls, or the presence scan standing in for the first. */
  ghost function Done(c: Config, l: Thread): nat {
    match l.pc
    case BspWait(k, _) => if k == 0 then 0 else k - 1
    case BspCheck(k, _) => k
    case BspSignal(k, _) => k
    case BspOwnBusy | BspHandler | BspStart(_, _) | BspDrain(_) | BspDrainTake(_) | BspDrainDrop(_) | BspTasks =>
      if Early(c, l) then c.E() else 0
    case BspLeave => c.E()
    case BspSetMode => c.E() + 1
    case BspAbsent => c.K() - 1
    case BspUnelect | BspReset | BspUnsync => c.K()
    case _ => 0
  }

  /** Barrier tokens the BSP has given to AP i. */
  ghost function Given(c: Config, l: Thread, i: int): nat {
    match l.pc
    case BspWait(k, _) => if k == 0 then 0 else k - 1
    case BspCheck(k, j) => if i >= j || k == 0 then k else k - 1
    case BspSignal(k, j) => if i >= j || k == 0 then k else k - 1
    case BspOwnBusy | BspHandler | BspStart(_, _) | BspDrain(_) | BspDrainTake(_) | BspDrainDrop(_) | BspTasks |
      BspLeave => c.E() - 1
    case BspSetMode => c.E()
    case BspAbsent | BspUnelect | BspReset | BspUnsync => c.K() - 1
    case _ => 0
  }

  /** Counter is locked: from LockdownSemaphore to the reset. */
  ghost predicate LockedPc(c: Config, l: Thread) {
    || l.pc.BspScan? || l.pc.BspWait? || l.pc.BspCheck? || l.pc.BspSignal? || l.pc.BspLeave?
    || l.pc.BspSetMode? || l.pc.BspAbsent? || l.pc.BspUnelect? || l.pc.BspReset?
    || ((l.pc.BspOwnBusy? || InHandlers(l.pc)) && Early(c, l))
  }

  ghost predicate SyncPc(c: Config, l: Thread) {
    LockedPc(c, l) || l.pc.BspLock? || l.pc.BspUnsync?
  }

  /** InsideSmm is set: from BspEnter to BspLeave. */
  ghost predicate InsidePc(c: Config, l: Thread) {
    || l.pc.BspPresent? || l.pc.BspClearStatus? || l.pc.BspSync? || l.pc.BspLock? || l.pc.BspScan? || l.pc.BspOwnBusy?
    || InHandlers(l.pc) || l.pc.BspLeave?
    || (l.pc.BspWait? && l.pc.k <= c.E())
    || ((l.pc.BspCheck? || l.pc.BspSignal?) && l.pc.k < c.E())
  }

  ghost predicate BeforeSetMode(c: Config, l: Thread) {
    || InsidePc(c, l) || l.pc.BspEnter? || l.pc.BspSetMode?
    || (l.pc.BspWait? && l.pc.k <= c.E() + 1)
    || ((l.pc.BspCheck? || l.pc.BspSignal?) && l.pc.k <= c.E())
  }

  /** The BSP has not yet taken its own Busy lock. */
  ghost predicate BeforeOwnBusy(c: Config, l: Thread) {
    || l.pc.TestBsp? || l.pc.BspReadMode? || l.pc.BspEnter? || l.pc.BspPresent? || l.pc.BspClearStatus?
       || l.pc.BspOwnBusy?
    || ((l.pc.BspSync? || l.pc.BspLock?) && Early(c, l))
    || (l.pc.BspWait? && l.pc.k <= c.E())
    || ((l.pc.BspCheck? || l.pc.BspSignal?) && l.pc.k < c.E())
  }

  ghost predicate BspPresentPc(c: Config, pc: Pc) {
    Entered(pc) && !pc.BspPresent? && !(pc.BspWait? && pc.k == c.K()) && !pc.BspUnelect? && !pc.BspReset?
      && !pc.BspUnsync?
  }

  /** Well-formed loop counters. */
  ghost predicate BspPcOk(c: Config, l: Thread, b: int) {
    && (l.pc.TestBsp? || IsBspPc(l.pc))
    && (l.pc.BspScan? ==> l.pc.j <= c.n && !Early(c, l))
    && (l.pc.BspWait? ==> FirstWait(c, l) <= l.pc.k <= c.K() && l.pc.left <= l.apCount)
    && (l.pc.BspCheck? ==> FirstRelease(c, l) <= l.pc.k < c.K() && l.pc.j <= c.n)
    && (l.pc.BspSignal? ==> FirstRelease(c, l) <= l.pc.k < c.K() && 0 < l.pc.j <= c.n && l.pc.j - 1 != b)
    && (l.pc.BspStart? ==> RequestPcOk(c, l.pc.stage, l.pc.req, b))
    && (l.pc.BspDrain? ==> l.pc.j <= c.n)
    && (l.pc.BspDrainTake? ==> 0 < l.pc.j <= c.n && l.pc.j - 1 != b)
    && (l.pc.BspDrainDrop? ==> 0 < l.pc.j <= c.n && l.pc.j - 1 != b)
  }

  /** The rounds that begin a relaxed run are played by the presence scan. */
  ghost function FirstWait(c: Config, l: Thread): nat { if Early(c, l) then 1 else 2 }

  ghost function FirstRelease(c: Config, l: Thread): nat { if Early(c, l) then 1 else c.E() }

  ghost predicate RequestPcOk(c: Config, stage: Stage, req: Request, b: int) {
    && (req.late ==> req.blocking)
    && (stage == AwaitBusy || stage == DropBusy ==> req.blocking)
    && (stage != LookPresent ==> req.target < c.n && req.target != b)
  }

  /** The BSP itself holds AP i's Busy lock. */
  ghost predicate BspHolds(l: Thread, i: int) {
    || (l.pc.BspStart? && l.pc.stage == DropBusy && l.pc.req.target == i)
    || (l.pc.BspDrainDrop? && l.pc.j - 1 == i)
  }

  /** The BSP has found AP i present and is about to use its Run, its Busy lock or its procedure slot. */
  ghost predicate Touching(l: Thread, i: int) {
    || (l.pc.BspStart? && l.pc.stage != LookPresent && l.pc.req.target == i)
    || ((l.pc.BspSignal? || l.pc.BspDrainTake? || l.pc.BspDrainDrop?) && l.pc.j - 1 == i)
  }

  /** The jobs that can be alive at this point of the BSP. */
  ghost predicate JobOk(l: Thread, i: int, job: Job) {
    && (job != NoJob ==> InHandlers(l.pc) && !l.pc.BspTasks?)
    && (l.pc.BspDrain? || l.pc.BspDrainTake? ==> i >= l.pc.j ==> job == NoJob)
    && (l.pc.BspDrainDrop? ==> i >= l.pc.j - 1 ==> job == NoJob)
    && (job == Claimed <==> Claiming(l, i))
    && (l.pc.BspStart? ==>
         && (l.pc.req.late && (l.pc.req.target != i || l.pc.stage == LookPresent || l.pc.stage == TakeBusy) ==>
            job == NoJob)
         && (l.pc.req.target == i && l.pc.stage == DropBusy ==> job == NoJob))
  }

  /** The BSP has taken AP i's Busy lock and not yet released its Run. */
  ghost predicate Claiming(l: Thread, i: int) {
    l.pc.BspStart? && l.pc.req.target == i
      && (l.pc.stage == PutProcedure || l.pc.stage == PutParameter || l.pc.stage == PutToken)
  }

  // ---------------------------------------------------------------- where an AP is

  ghost predicate IsApPc(pc: Pc) {
    || pc.ApReadMode? || pc.ApSpin? || pc.ApReadBsp? || pc.ApArrive? || pc.ApSignal? || pc.ApWait?
    || pc.ApCheck? || pc.ApCall? || pc.ApFree? || pc.ApDepart?
  }

  /** Barrier signals an AP of the run has given. */
  ghost function Sig(c: Config, l: Thread): nat {
    match l.pc
    case ApSignal(k) => if k == 0 then 0 else k - 1
    case ApWait(k) => k
    case ApCheck | ApCall | ApFree => c.E()
    case ApDepart => c.K() - 1
    case Held => c.K()
    case _ => 0
  }

  /** Barrier tokens an AP of the run has taken; one in hand at ApCheck, ApCall and ApFree is not counted. */
  ghost function Took(c: Config, l: Thread): nat {
    match l.pc
    case ApSignal(k) => if k == 0 then 0 else k - 1
    case ApWait(k) => if k == 0 then 0 else k - 1
    case ApCheck | ApCall | ApFree => c.E() - 1
    case ApDepart | Held => c.K() - 1
    case _ => 0
  }

  ghost function Hold(l: Thread): nat {
    if l.pc.ApCheck? || l.pc.ApCall? || l.pc.ApFree? then 1 else 0
  }

  ghost function JobToken(job: Job): nat {
    if job == NoJob || job == Claimed then 0 else 1
  }

  ghost predicate ApPresentPc(c: Config, pc: Pc) {
    || (pc.ApSignal? && pc.k < c.K()) || pc.ApWait? || pc.ApCheck? || pc.ApCall? || pc.ApFree? || pc.ApDepart?
  }

  /** The AP has seen InsideSmm set. */
  ghost predicate PastSpin(pc: Pc) {
    pc.ApReadBsp? || pc.ApArrive? || pc.ApSignal? || pc.ApWait? || pc.ApCheck? || pc.ApCall? || pc.ApFree?
      || pc.ApDepart? || pc.Held?
  }

  ghost predicate HasMode(pc: Pc) {
    pc.ApSpin? || PastSpin(pc)
  }

  ghost predicate ApPcOk(c: Config, l: Thread) {
    && (IsApPc(l.pc) || l.pc.FreeOwnBusy? || l.pc.Elect? || l.pc.TestBsp? || l.pc.Held?)
    && (l.pc.ApSignal? ==> 1 <= l.pc.k <= c.K() && (l.pc.k == 1 ==> Early(c, l)))
    && (l.pc.ApWait? ==> 1 <= l.pc.k <= c.K() - 1)
  }

  ghost predicate JobFitsPc(c: Config, pc: Pc, job: Job) {
    && (job == Claimed || job == Queued ==> pc == ApWait(c.E()))
    && (job == Taken ==> pc.ApCheck? || pc.ApCall?)
    && (job == Finished <==> pc.ApFree?)
    && (pc.ApCall? ==> job == Taken)
  }

  // ---------------------------------------------------------------- the invariant

  /** What the state of a CPU is judged against: the elected BSP, if any, and EffectiveSyncMode. */
  datatype View = View(leader: int, lb: Thread, effMode: Mode)

  ghost function ViewOf(c: Config, s: State): View
    requires Sized(c, s) && c.Valid()
  {
    View(s.leader, if s.leader < 0 then Thread(Outside, Traditional, -1, 0) else s.cpu[s.leader].t, s.effMode)
  }

  ghost predicate OutsiderOk(v: Cpu) {
    && (v.t.pc.Outside? || v.t.pc.ReadInside? || v.t.pc.CountIn? || v.t.pc.Held?)
    && !v.present && v.run == 0 && v.job == NoJob
  }

  /** A member before any BSP is elected. */
  ghost predicate EarlyApOk(x: View, v: Cpu) {
    var pc := v.t.pc;
    && (pc.FreeOwnBusy? || pc.Elect? || pc.TestBsp? || pc.ApReadMode? || pc.ApSpin?)
    && !v.present && v.run == 0 && v.job == NoJob
    && (pc.ApSpin? ==> v.t.mode == x.effMode)
    && (!pc.FreeOwnBusy? ==> !v.busy)
  }

  /** A member that is not the leader, once there is one. */
  ghost predicate ApOk(c: Config, x: View, i: int, v: Cpu) {
    var l := v.t;
    && ApPcOk(c, l)
    && Done(c, x.lb) <= Sig(c, l)
    && v.run + Took(c, l) + Hold(l) == Given(c, x.lb, i) + JobToken(v.job)
    && (v.present <==> ApPresentPc(c, l.pc))
    && (PastSpin(l.pc) ==> Entered(x.lb.pc))
    && (PastSpin(l.pc) && !l.pc.ApReadBsp? ==> l.bsp == x.leader)
    && (HasMode(l.pc) ==> l.mode == RunMode(x))
    && JobOk(x.lb, i, v.job)
    && JobFitsPc(c, l.pc, v.job)
    && (!l.pc.FreeOwnBusy? ==> (v.busy <==> v.job != NoJob || BspHolds(x.lb, i)))
  }

  /** The sync mode of the run: what the BSP has read, or is going to read. */
  ghost function RunMode(x: View): Mode {
    if x.lb.pc.TestBsp? || x.lb.pc.BspReadMode? then x.effMode else x.lb.mode
  }

  /** Every accepted procedure has run, except one still on its way. */
  ghost predicate WorkOk(v: Cpu) {
    if v.job == Queued || v.job == Taken then v.accepted == v.ran + [v.task] else v.accepted == v.ran
  }

  ghost predicate CpuOk(c: Config, x: View, i: int, v: Cpu) {
    && WorkOk(v)
    && (0 <= x.leader && i != x.leader && Touching(x.lb, i) ==> v.present)
    && if !v.member then i != x.leader && OutsiderOk(v)
       else if x.leader < 0 then EarlyApOk(x, v)
       else if i == x.leader then v.job == NoJob
       else ApOk(c, x, i, v)
  }

  /** The members of the run as 0/1 flags. */
  ghost function Members(s: State): (xs: seq<int>)
    ensures |xs| == |s.cpu| && forall i {:trigger xs[i]} :: 0 <= i < |xs| ==> xs[i] == if s.cpu[i].member then 1 else 0
  {
    seq(|s.cpu|, i requires 0 <= i < |s.cpu| => if s.cpu[i].member then 1 else 0)
  }

  /** The Present flags from index j up as 0/1 flags. */
  ghost function Presence(s: State, j: nat): (xs: seq<int>)
    requires j <= |s.cpu|
    ensures |xs| == |s.cpu| - j && forall i {:trigger xs[i]} :: 0 <= i < |xs| ==>
      xs[i] == if s.cpu[j + i].present then 1 else 0
  {
    seq(|s.cpu| - j, i requires 0 <= i < |s.cpu| - j => if s.cpu[j + i].present then 1 else 0)
  }

  /** The shared variables the leader's position determines, with the number of members. */
  datatype Shared = Shared(counter: nat, insideSmm: bool, inSync: bool, bspIndex: int, members: int)

  ghost function SharedOf(s: State): Shared {
    Shared(s.counter, s.insideSmm, s.inSync, s.bspIndex, Sum(Members(s)))
  }

  ghost predicate LeaderOk(c: Config, x: View, g: Shared, present: bool, busy: bool) {
    var l := x.lb;
    && BspPcOk(c, l, x.leader)
    && (present <==> BspPresentPc(c, l.pc))
    && (BeforeOwnBusy(c, l) ==> !busy)
    && g.bspIndex == (if l.pc.BspReset? || l.pc.BspUnsync? then -1 else x.leader)
    && (g.insideSmm <==> InsidePc(c, l))
    && (g.inSync <==> SyncPc(c, l))
    && (BeforeSetMode(c, l) ==> x.effMode == l.mode)
    && (LockedPc(c, l) ==> l.apCount == g.members - 1)
    && g.counter == (if LockedPc(c, l) then LOCKED else if l.pc.BspUnsync? then 0 else g.members)
  }

  /** What AP i has signalled and the BSP has not counted yet: 0 or 1 token. */
  ghost function Owed(c: Config, x: View, i: int, v: Cpu): int {
    if !v.member || i == x.leader || (Done(c, x.lb) == 0 && !Early(c, x.lb)) then 0
    else Sig(c, v.t) - Done(c, x.lb)
  }

  ghost function Owing(c: Config, s: State): (xs: seq<int>)
    requires Sized(c, s) && c.Valid()
    ensures |xs| == c.n && forall i {:trigger xs[i]} :: 0 <= i < c.n ==> xs[i] == Owed(c, ViewOf(c, s), i, s.cpu[i])
  {
    seq(c.n, i requires 0 <= i < c.n => Owed(c, ViewOf(c, s), i, s.cpu[i]))
  }

  /** Tokens already taken in the wait the BSP is in. */
  ghost function Partial(l: Thread): int {
    if l.pc.BspWait? then l.apCount - l.pc.left else 0
  }

  /** The BSP's Run holds exactly what the APs have signalled and the BSP has not taken. */
  ghost predicate TokensOk(lb: Thread, run: nat, owed: int) {
    run + Partial(lb) == owed
  }

  /** The presence scan never counts more than the flags that are set. */
  ghost predicate ScanOk(lb: Thread, s: State) {
    lb.pc.BspScan? && lb.pc.j <= |s.cpu| ==> lb.pc.found <= Sum(Presence(s, lb.pc.j))
  }

  /** The request in hand agrees with the part of it already handed over. */
  ghost predicate RequestOk(lb: Thread, s: State) {
    lb.pc.BspStart? && lb.pc.req.target < |s.cpu| ==>
      var req := lb.pc.req;
      var task := s.cpu[req.target].task;
      && (lb.pc.stage == PutParameter || lb.pc.stage == PutToken ==> task.procedure == req.task.procedure)
      && (lb.pc.stage == PutToken ==> task.parameter == req.task.parameter)
  }

  ghost predicate NoLeaderOk(g: Shared) {
    g.bspIndex == -1 && !g.insideSmm && !g.inSync && g.counter == g.members
  }

  ghost predicate CpusOk(c: Config, s: State)
    requires Sized(c, s) && c.Valid()
  {
    forall i :: 0 <= i < c.n ==> CpuOk(c, ViewOf(c, s), i, s.cpu[i])
  }

  ghost predicate GlobalsOk(c: Config, s: State)
    requires Sized(c, s) && c.Valid()
  {
    if s.leader < 0 then NoLeaderOk(SharedOf(s))
    else
      var b := s.cpu[s.leader];
      && LeaderOk(c, ViewOf(c, s), SharedOf(s), b.present, b.busy)
      && TokensOk(b.t, b.run, Sum(Owing(c, s)))
      && ScanOk(b.t, s)
      && RequestOk(b.t, s)
  }

  ghost predicate Inv(c: Config, s: State) {
    c.Valid() && Sized(c, s) && CpusOk(c, s) && GlobalsOk(c, s)
  }

  /** Between runs: no member, every semaphore and flag as InitializeMpSyncData leaves it. */
  ghost predicate Quiet(c: Config, s: State) {
    && Sized(c, s)
    && s.counter == 0 && !s.insideSmm && !s.inSync && s.bspIndex == -1 && s.leader == -1
    && forall i :: 0 <= i < c.n ==> !s.cpu[i].member && OutsiderOk(s.cpu[i]) && s.cpu[i].accepted == s.cpu[i].ran
  }
}
