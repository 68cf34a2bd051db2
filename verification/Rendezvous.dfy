/** The SMM rendezvous of MpService.c as an interleaving machine: one program counter per CPU,
    one shared access per step.  A retried compare-exchange and a polling read that finds nothing
    are steps that are not enabled. */
module Rendezvous {
  import opened Common
  import opened Sums

  /** A semaphore holding this value is locked: ReleaseSemaphore leaves it alone and answers 0. */
  const LOCKED: nat := 0xFFFF_FFFF

  datatype Mode = Traditional | Relaxed

  /** mMaxNumberOfCpus and NeedConfigureMtrrs(). */
  datatype Config = Config(n: nat, mtrr: bool) {
    ghost predicate Valid() { 0 < n < LOCKED }

    /** The barrier round whose release tells the APs to leave. */
    function E(): nat { if mtrr then 3 else 1 }

    /** The number of barrier rounds of a run. */
    function K(): nat { if mtrr then 6 else 3 }
  }

  /** A scheduled procedure with its parameter. */
  datatype Task = Task(procedure: nat, parameter: nat)

  /** A SmmStartupThisAp call in progress on the BSP; `late` ones come from PerformRemainingTasks. */
  datatype Request = Request(target: nat, task: Task, blocking: bool, late: bool)

  datatype Stage = LookPresent | TakeBusy | PutProcedure | PutParameter | PutToken | AwaitBusy | DropBusy

  /** Where a CPU is; each value names the shared access it makes next.
      CPU indices in loops count down as in the source: at j, index j - 1 is next. */
  datatype Pc =
    // SmiRendezvous
    | Outside
    | ReadInside(valid: bool)
    | CountIn(inProgress: bool)
    | FreeOwnBusy(inProgress: bool)
    | Elect
    | TestBsp
    | Held
    // APHandler
    | ApReadMode
    | ApSpin
    | ApReadBsp
    | ApArrive
    | ApSignal(k: nat)
    | ApWait(k: nat)
    | ApCheck
    | ApCall
    | ApFree
    | ApDepart
    // BSPHandler
    | BspReadMode
    | BspEnter
    | BspPresent
    | BspClearStatus
    | BspSync
    | BspLock
    | BspScan(j: nat, found: nat)
    | BspWait(k: nat, left: nat)
    | BspCheck(k: nat, j: nat)
    | BspSignal(k: nat, j: nat)
    | BspOwnBusy
    | BspHandler
    | BspStart(stage: Stage, req: Request)
    | BspDrain(j: nat)
    | BspDrainTake(j: nat)
    | BspDrainDrop(j: nat)
    | BspTasks
    | BspLeave
    | BspSetMode
    | BspAbsent
    | BspUnelect
    | BspReset
    | BspUnsync

  /** A CPU's program counter and its locals SyncMode, BspIndex and ApCount. */
  datatype Thread = Thread(pc: Pc, mode: Mode, bsp: int, apCount: nat)

  /** The life of a scheduled procedure on its target AP. */
  datatype Job = NoJob | Claimed | Queued | Taken | Finished

  /** A CPU: its thread and its SMM_CPU_DATA_BLOCK; then history: whether it takes part in the run,
      the job it was given, what was accepted for it and what it ran. */
  datatype Cpu = Cpu(t: Thread, run: nat, present: bool, busy: bool, task: Task,
                     member: bool, job: Job, accepted: seq<Task>, ran: seq<Task>)

  /** The shared variables of mSmmMpSyncData, the SMI status, and the winner of the election. */
  datatype State = State(counter: nat, insideSmm: bool, inSync: bool, bspIndex: int,
                         effMode: Mode, nextMode: Mode, smiStatus: bool, leader: int, cpu: seq<Cpu>)

  /** What a step is free to choose. */
  datatype Choice =
    | Go
    | Skip
    | Start(req: Request)

  /** The value ReleaseSemaphore leaves behind. */
  function Release(sem: nat): (r: nat)
    ensures sem == LOCKED ==> r == LOCKED
    ensures sem != LOCKED ==> r == sem + 1
  {
    if sem == LOCKED then sem else sem + 1
  }

  /** The BSP gathers its APs before the SMI handlers rather than after. */
  predicate Early(c: Config, t: Thread) {
    t.mode == Traditional || c.mtrr
  }

  function Goto(v: Cpu, pc: Pc): Cpu {
    v.(t := v.t.(pc := pc))
  }

  function Put(s: State, i: nat, v: Cpu): State
    requires i < |s.cpu|
  {
    s.(cpu := s.cpu[i := v])
  }

  /** ReleaseSemaphore on the Run of CPU i. */
  function Signal(s: State, i: nat): State
    requires i < |s.cpu|
  {
    Put(s, i, s.cpu[i].(run := Release(s.cpu[i].run)))
  }

  ghost predicate Sized(c: Config, s: State) {
    |s.cpu| == c.n && -1 <= s.leader < c.n
  }

  // ---------------------------------------------------------------- SmiRendezvous

  /** No SMI may be counted between the BSP's last two writes. */
  predicate Closing(s: State) {
    0 <= s.leader < |s.cpu| && s.cpu[s.leader].t.pc == BspUnsync
  }

  function NextEntry(c: Config, s: State, i: nat, a: Choice): Option<State>
    requires Sized(c, s) && i < c.n
  {
    var v := s.cpu[i];
    match v.t.pc
    case Outside =>
      if a == Go then Some(Put(s, i, Goto(v, ReadInside(s.smiStatus)))) else None
    case ReadInside(valid) =>
      Some(Put(s, i, Goto(v, if !s.insideSmm && !valid then Outside else CountIn(s.insideSmm))))
    case CountIn(inProgress) =>
      if Closing(s) then None
      else if Release(s.counter) == s.counter then Some(Put(s, i, Goto(v, Held)))
      else Some(Put(s, i, Goto(v, FreeOwnBusy(inProgress)).(member := true)).(counter := Release(s.counter)))
    case FreeOwnBusy(inProgress) =>
      Some(Put(s, i, Goto(v, if inProgress then ApReadMode else Elect).(busy := false)))
    case Elect =>
      // a CPU that is not a candidate skips the election
      var s' := Put(s, i, Goto(v, TestBsp));
      Some(if a == Go && s.bspIndex == -1 then s'.(bspIndex := i, leader := i) else s')
    case TestBsp =>
      Some(Put(s, i, Goto(v, if s.bspIndex == i then BspReadMode else ApReadMode)))
    case Held =>
      if s.inSync then None else Some(Put(s, i, Goto(v, Outside)))
    case _ => None
  }

  // ---------------------------------------------------------------- APHandler

  function NextAp(c: Config, s: State, i: nat): Option<State>
    requires Sized(c, s) && i < c.n
  {
    var v := s.cpu[i];
    match v.t.pc
    case ApReadMode =>
      Some(Put(s, i, v.(t := v.t.(pc := ApSpin, mode := s.effMode))))
    case ApSpin =>
      if s.insideSmm then Some(Put(s, i, Goto(v, ApReadBsp))) else None
    case ApReadBsp =>
      Some(Put(s, i, v.(t := v.t.(pc := ApArrive, bsp := s.bspIndex))))
    case ApArrive =>
      Some(Put(s, i, Goto(v, if Early(c, v.t) then ApSignal(1) else ApWait(1)).(present := true)))
    case ApSignal(k) =>
      if !(0 <= v.t.bsp < c.n) then None
      else Some(Signal(Put(s, i, Goto(v, if k == c.K() then Held else ApWait(k))), v.t.bsp))
    case ApWait(k) =>
      if v.run == 0 then None else Some(Put(s, i, TakeToken(c, v, k)))
    case ApCheck =>
      Some(Put(s, i, Goto(v, if s.insideSmm then ApCall else ApSignal(c.E() + 1))))
    case ApCall =>
      Some(Put(s, i, Goto(v, ApFree).(ran := v.ran + [v.task], job := Finished)))
    case ApFree =>
      Some(Put(s, i, Goto(v, ApWait(c.E())).(busy := false, job := NoJob)))
    case ApDepart =>
      Some(Put(s, i, Goto(v, ApSignal(c.K())).(present := false)))
    case _ => None
  }

  /** An AP's WaitForSemaphore on its own Run succeeds in round k. */
  function TakeToken(c: Config, v: Cpu, k: nat): Cpu
    requires v.run > 0
  {
    Goto(v, if k == c.E() then ApCheck else if k == c.K() - 1 then ApDepart else ApSignal(k + 1))
    .(run := v.run - 1, job := if v.job == Queued then Taken else v.job)
  }

  // ---------------------------------------------------------------- BSPHandler

  /** Where the BSP goes when its k-th WaitForAllAPs returns. */
  function AfterWait(c: Config, k: nat): Pc {
    if k == c.E() then BspOwnBusy
    else if k == c.E() + 1 then BspSetMode
    else if k == c.K() then BspUnelect
    else BspCheck(k, c.n)
  }

  /** Where the BSP goes when its k-th ReleaseAllAPs returns. */
  function AfterRelease(c: Config, t: Thread, k: nat): Pc {
    if k == c.K() - 1 then BspAbsent else BspWait(k + 1, t.apCount)
  }

  function NextBsp(c: Config, s: State, i: nat, a: Choice): Option<State>
    requires Sized(c, s) && i < c.n
  {
    var v := s.cpu[i];
    match v.t.pc
    case BspReadMode =>
      Some(Put(s, i, v.(t := v.t.(pc := BspEnter, mode := s.effMode))))
    case BspEnter =>
      Some(Put(s, i, Goto(v, BspPresent)).(insideSmm := true))
    case BspPresent =>
      Some(Put(s, i, Goto(v, BspClearStatus).(present := true)))
    case BspClearStatus =>
      Some(Put(s, i, Goto(v, if Early(c, v.t) then BspSync else BspOwnBusy)).(smiStatus := false))
    case BspSync =>
      Some(Put(s, i, Goto(v, BspLock)).(inSync := true))
    case BspLock =>
      var ap := if s.counter == 0 then 0 else s.counter - 1;
      var pc := if Early(c, v.t) then BspWait(1, ap) else BspScan(c.n, 0);
      Some(Put(s, i, v.(t := v.t.(pc := pc, apCount := ap))).(counter := LOCKED))
    case BspScan(j, found) =>
      if !(0 < j <= c.n) then Some(Put(s, i, Goto(v, if found > v.t.apCount then BspLeave else BspScan(c.n, 0))))
      else Some(Put(s, i, Goto(v, BspScan(j - 1, if s.cpu[j - 1].present then found + 1 else found))))
    case BspWait(k, left) =>
      if left == 0 then Some(Put(s, i, Goto(v, AfterWait(c, k))))
      else if v.run == 0 then None
      else Some(Put(s, i, Goto(v, BspWait(k, left - 1)).(run := v.run - 1)))
    case BspCheck(k, j) =>
      if !(0 < j <= c.n) then Some(Put(s, i, Goto(v, AfterRelease(c, v.t, k))))
      else Some(Put(s, i, Goto(v, if j - 1 != i && s.cpu[j - 1].present then BspSignal(k, j) else BspCheck(k, j - 1))))
    case BspSignal(k, j) =>
      if !(0 < j <= c.n) then None else Some(Signal(Put(s, i, Goto(v, BspCheck(k, j - 1))), j - 1))
    case BspOwnBusy =>
      if v.busy then None else Some(Put(s, i, Goto(v, BspHandler).(busy := true)))
    case BspHandler =>
      Some(Put(s, i, Goto(v, if a.Start? then BspStart(LookPresent, a.req.(late := false)) else BspDrain(c.n))))
    case BspStart(stage, req) => NextStart(c, s, i, a)
    case BspDrain(j) =>
      if !(0 < j <= c.n) then Some(Put(s, i, Goto(v, BspTasks)))
      else Some(Put(s, i, Goto(v, if j - 1 != i && s.cpu[j - 1].present then BspDrainTake(j) else BspDrain(j - 1))))
    case BspDrainTake(j) =>
      if !(0 < j <= c.n) || s.cpu[j - 1].busy then None
      else Some(SetBusy(Put(s, i, Goto(v, BspDrainDrop(j))), j - 1, true))
    case BspDrainDrop(j) =>
      if !(0 < j <= c.n) then None else Some(SetBusy(Put(s, i, Goto(v, BspDrain(j - 1))), j - 1, false))
    case BspTasks =>
      var leave := if Early(c, v.t) then BspLeave else BspSync;
      Some(Put(s, i, Goto(v, if a.Start? then BspStart(LookPresent, a.req.(late := true, blocking := true))
        else leave)))
    case BspLeave =>
      Some(Put(s, i, Goto(v, BspCheck(c.E(), c.n))).(insideSmm := false))
    case BspSetMode =>
      Some(Put(s, i, Goto(v, BspCheck(c.E() + 1, c.n))).(effMode := s.nextMode))
    case BspAbsent =>
      Some(Put(s, i, Goto(v, BspWait(c.K(), v.t.apCount)).(present := false)))
    case BspUnelect =>
      Some(Put(s, i, Goto(v, BspReset)).(bspIndex := -1))
    case BspReset =>
      Some(Put(s, i, Goto(v, BspUnsync)).(counter := 0))
    case BspUnsync =>
      Some(EndRun(Put(s, i, Goto(v, Held)).(inSync := false)))
    case _ => None
  }

  function SetBusy(s: State, i: nat, busy: bool): State
    requires i < |s.cpu|
  {
    Put(s, i, s.cpu[i].(busy := busy))
  }

  /** History: the run is over, nobody takes part in it any more. */
  function EndRun(s: State): State {
    s.(leader := -1, cpu := seq(|s.cpu|, i requires 0 <= i < |s.cpu| => s.cpu[i].(member := false)))
  }

  /** SmmStartupThisAp and SmmBlockingStartupThisAp, run by the BSP. */
  function NextStart(c: Config, s: State, i: nat, a: Choice): Option<State>
    requires Sized(c, s) && i < c.n
    requires s.cpu[i].t.pc.BspStart?
  {
    var v := s.cpu[i];
    var req := v.t.pc.req;
    var t := req.target;
    var back := if req.late then BspTasks else BspHandler;
    if v.t.pc.stage == LookPresent then
      // a target that is out of range, is the BSP, or is not present is refused
      Some(Put(s, i, Goto(v, if t < c.n && t != i && s.cpu[t].present then BspStart(TakeBusy, req) else back)))
    else if t >= c.n || t == i then None
    else NextTarget(s, i, a, req, back)
  }

  /** The part of the call that works on the target's data block. */
  function NextTarget(s: State, i: nat, a: Choice, req: Request, back: Pc): Option<State>
    requires i < |s.cpu| && req.target < |s.cpu| && s.cpu[i].t.pc.BspStart?
  {
    var v := s.cpu[i];
    var t := req.target;
    var w := s.cpu[t];
    match v.t.pc.stage
    case LookPresent => None
    case TakeBusy =>
      // a removed or a busy target is refused
      if a == Skip || w.busy then Some(Put(s, i, Goto(v, back)))
      else Some(Put(Put(s, i, Goto(v, BspStart(PutProcedure, req))), t, w.(busy := true, job := Claimed)))
    case PutProcedure =>
      Some(Put(Put(s, i, Goto(v, BspStart(PutParameter, req))), t,
        w.(task := w.task.(procedure := req.task.procedure))))
    case PutParameter =>
      Some(Put(Put(s, i, Goto(v, BspStart(PutToken, req))), t, w.(task := w.task.(parameter := req.task.parameter))))
    case PutToken =>
      Some(Put(Put(s, i, Goto(v, if req.blocking then BspStart(AwaitBusy, req) else back)),
               t, w.(run := Release(w.run), job := Queued, accepted := w.accepted + [req.task])))
    case AwaitBusy =>
      if w.busy then None else Some(SetBusy(Put(s, i, Goto(v, BspStart(DropBusy, req))), t, true))
    case DropBusy =>
      Some(SetBusy(Put(s, i, Goto(v, back)), t, false))
  }

  /** One step of CPU i; None when it has to wait. */
  function Next(c: Config, s: State, i: nat, a: Choice): Option<State>
    requires Sized(c, s) && i < c.n
  {
    match s.cpu[i].t.pc
    case Outside | ReadInside(_) | CountIn(_) | FreeOwnBusy(_) | Elect | TestBsp | Held => NextEntry(c, s, i, a)
    case ApReadMode | ApSpin | ApReadBsp | ApArrive | ApSignal(_) | ApWait(_) | ApCheck | ApCall | ApFree | ApDepart =>
      NextAp(c, s, i)
    case _ => NextBsp(c, s, i, a)
  }

  /** A step of some CPU, a new SMI source, or a request for another sync mode. */
  ghost predicate Step(c: Config, s: State, s': State)
    requires Sized(c, s)
  {
    || (exists i: nat, a :: i < c.n && Next(c, s, i, a) == Some(s'))
    || s' == s.(smiStatus := true)
    || (exists m :: s' == s.(nextMode := m))
  }
}
