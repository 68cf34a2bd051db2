/** A run comes to its end: a measure that every step lowers, and no state without a step. */
module RendezvousProgress {
  import opened Common
  import opened Sums
  import opened Rendezvous
  import opened RendezvousInvariant
  import opened RendezvousSafety
  import opened RendezvousTheorems

  // ---------------------------------------------------------------- the measure

  /** What m barrier rounds of the BSP cost at most. */
  ghost function Rounds(c: Config, m: int): (r: nat)
    ensures m > 0 ==> r >= 13 * c.n + 40
  {
    if m <= 0 then 0 else 13 * c.n + 40 + Rounds(c, m - 1)
  }

  ghost function LeaveRank(c: Config): nat { Rounds(c, c.K() - c.E() - 1) + 8 + 8 * c.n }

  ghost function TasksRank(c: Config): nat { LeaveRank(c) + 2 * c.n + 10 }

  ghost function HandlerRank(c: Config): nat { TasksRank(c) + 21 + 3 * c.n }

  ghost function StageRank(stage: Stage): nat {
    match stage
    case LookPresent => 12
    case TakeBusy => 11
    case PutProcedure => 10
    case PutParameter => 9
    case PutToken => 8
    case AwaitBusy => 2
    case DropBusy => 1
  }

  /** An upper bound on the steps a thread can still take in this run, four of them for each token it sends. */
  ghost function Rank(c: Config, t: Thread): int {
    match t.pc
    case Outside => 0
    case Held => 1
    case ReadInside(_) => Rounds(c, c.K()) + 10
    case CountIn(_) => Rounds(c, c.K()) + 9
    case FreeOwnBusy(_) => Rounds(c, c.K()) + 8
    case Elect => Rounds(c, c.K()) + 7
    case TestBsp => Rounds(c, c.K()) + 6
    case ApReadMode => 10 * c.K() + 4
    case ApSpin => 10 * c.K() + 3
    case ApReadBsp => 10 * c.K() + 2
    case ApArrive => 10 * c.K() + 1
    case ApSignal(k) => 10 * (c.K() - k) + 10
    case ApWait(k) => 10 * (c.K() - k) + 4
    case ApCheck => 10 * (c.K() - c.E()) + 7
    case ApCall => 10 * (c.K() - c.E()) + 6
    case ApFree => 10 * (c.K() - c.E()) + 5
    case ApDepart => 11
    case BspReadMode => Rounds(c, c.K()) + 5
    case BspEnter => Rounds(c, c.K()) + 4
    case BspPresent => Rounds(c, c.K()) + 3
    case BspClearStatus => Rounds(c, c.K()) + 2
    case BspSync => if Early(c, t) then Rounds(c, c.K()) + 1 else LeaveRank(c) + 2 * c.n + 5
    case BspLock => if Early(c, t) then Rounds(c, c.K()) else LeaveRank(c) + 2 * c.n + 4
    case BspScan(j, _) => LeaveRank(c) + 1 + j
    case BspWait(k, left) => Rounds(c, c.K() - k) + 5 + left
    case BspCheck(k, j) => Rounds(c, c.K() - k - 1) + 7 + c.n + 7 * j
    case BspSignal(k, j) => Rounds(c, c.K() - k - 1) + 6 + c.n + 7 * j
    case BspOwnBusy => HandlerRank(c) + 1
    case BspHandler => HandlerRank(c)
    case BspStart(stage, req) => (if req.late then TasksRank(c) else HandlerRank(c)) + StageRank(stage)
    case BspDrain(j) => TasksRank(c) + 20 + 3 * j
    case BspDrainTake(j) => TasksRank(c) + 19 + 3 * j
    case BspDrainDrop(j) => TasksRank(c) + 18 + 3 * j
    case BspTasks => TasksRank(c)
    case BspLeave => LeaveRank(c)
    case BspSetMode => Rounds(c, c.K() - c.E() - 2) + 8 + 8 * c.n
    case BspAbsent => 6 + c.n
    case BspUnelect => 4
    case BspReset => 3
    case BspUnsync => 2
  }

  ghost function Weight(c: Config, v: Cpu): int { Rank(c, v.t) + 4 * v.run }

  ghost function Weights(c: Config, s: State): (xs: seq<int>)
    ensures |xs| == |s.cpu| && forall i {:trigger xs[i]} :: 0 <= i < |xs| ==> xs[i] == Weight(c, s.cpu[i])
  {
    seq(|s.cpu|, i requires 0 <= i < |s.cpu| => Weight(c, s.cpu[i]))
  }

  /** The Present flags below index j. */
  ghost function Below(s: State, j: nat): (r: nat)
    requires j <= |s.cpu|
  {
    if j == 0 then 0 else Below(s, j - 1) + if s.cpu[j - 1].present then 1 else 0
  }

  /** The pass of the presence scan in progress has missed somebody and will be repeated. */
  ghost predicate Missed(c: Config, s: State) {
    && 0 <= s.leader < |s.cpu| && s.cpu[s.leader].t.pc.BspScan? && s.cpu[s.leader].t.pc.j <= |s.cpu|
    && s.cpu[s.leader].t.pc.found + Below(s, s.cpu[s.leader].t.pc.j) <= s.cpu[s.leader].t.apCount
  }

  ghost function Measure(c: Config, s: State): int {
    Sum(Weights(c, s)) + if Missed(c, s) then c.n + 2 else 0
  }

  // ---------------------------------------------------------------- sums of weights

  lemma WeightOne(c: Config, s: State, i: nat, v: Cpu)
    requires i < |s.cpu|
    ensures Sum(Weights(c, Put(s, i, v))) == Sum(Weights(c, s)) - Weight(c, s.cpu[i]) + Weight(c, v)
  {
    SumUpdate(Weights(c, s), i, Weight(c, v));
    assert Weights(c, Put(s, i, v)) == Weights(c, s)[i := Weight(c, v)];
  }

  lemma WeightTwo(c: Config, s: State, i: nat, v: Cpu, t: nat, w: Cpu)
    requires i < |s.cpu| && t < |s.cpu| && i != t
    ensures Sum(Weights(c, Put(Put(s, i, v), t, w)))
         == Sum(Weights(c, s)) - Weight(c, s.cpu[i]) + Weight(c, v) - Weight(c, s.cpu[t]) + Weight(c, w)
  {
    WeightOne(c, s, i, v);
    WeightOne(c, Put(s, i, v), t, w);
  }

  /** Beside the weights, such a step takes a Present flag down in two places only, starts no scan,
      and changes the leader only to elect CPU i. */
  ghost predicate Mild(s: State, s': State, i: nat) {
    && i < |s.cpu| == |s'.cpu| && !s'.cpu[i].t.pc.BspScan? && (s'.leader == s.leader || s'.leader == i)
    && (s.cpu[i].present ==> s'.cpu[i].present || s.cpu[i].t.pc.ApDepart? || s.cpu[i].t.pc.BspAbsent?)
  }

  /** A step that moves CPU i alone, and down. */
  ghost predicate OneDrops(c: Config, s: State, s': State, i: nat) {
    && Mild(s, s', i) && s'.cpu == s.cpu[i := s'.cpu[i]]
    && Weight(c, s'.cpu[i]) < Weight(c, s.cpu[i])
  }

  /** A step that moves CPU i and writes the data block of CPU t, and down in sum. */
  ghost predicate TwoDrop(c: Config, s: State, s': State, i: nat, t: nat) {
    && Mild(s, s', i) && t < |s.cpu| && i != t && s'.cpu == s.cpu[i := s'.cpu[i]][t := s'.cpu[t]]
    && s'.cpu[t].t == s.cpu[t].t && s'.cpu[t].present == s.cpu[t].present
    && Weight(c, s'.cpu[i]) + Weight(c, s'.cpu[t]) < Weight(c, s.cpu[i]) + Weight(c, s.cpu[t])
  }

  lemma ApArrivingDrops(c: Config, s: State, i: nat, s': State)
    requires c.Valid() && Sized(c, s) && i < c.n && NextAp(c, s, i) == Some(s')
    requires var pc := s.cpu[i].t.pc; pc.ApReadMode? || pc.ApSpin? || pc.ApReadBsp? || pc.ApArrive?
    requires ApPcOk(c, s.cpu[i].t)
    ensures OneDrops(c, s, s', i)
  {
    EnoughRounds(c);
  }

  lemma ApWaitingDrops(c: Config, s: State, i: nat, s': State)
    requires c.Valid() && Sized(c, s) && i < c.n && NextAp(c, s, i) == Some(s')
    requires var pc := s.cpu[i].t.pc; pc.ApWait?
    requires ApPcOk(c, s.cpu[i].t)
    ensures OneDrops(c, s, s', i)
  {
    EnoughRounds(c);
  }

  lemma ApWorkingDrops(c: Config, s: State, i: nat, s': State)
    requires c.Valid() && Sized(c, s) && i < c.n && NextAp(c, s, i) == Some(s')
    requires var pc := s.cpu[i].t.pc; pc.ApCheck? || pc.ApCall? || pc.ApFree? || pc.ApDepart?
    requires ApPcOk(c, s.cpu[i].t)
    ensures OneDrops(c, s, s', i)
  {
    EnoughRounds(c);
  }

  lemma BspOpeningDrops(c: Config, s: State, i: nat, a: Choice, s': State)
    requires c.Valid() && Sized(c, s) && i < c.n && NextBsp(c, s, i, a) == Some(s')
    requires var pc := s.cpu[i].t.pc; pc.BspReadMode? || pc.BspEnter? || pc.BspPresent?
    ensures OneDrops(c, s, s', i)
  {
    EnoughRounds(c);
  }

  lemma BspClearingDrops(c: Config, s: State, i: nat, a: Choice, s': State)
    requires c.Valid() && Sized(c, s) && i < c.n && NextBsp(c, s, i, a) == Some(s')
    requires var pc := s.cpu[i].t.pc; pc.BspClearStatus? || pc.BspSync?
    ensures OneDrops(c, s, s', i)
  {
    EnoughRounds(c);
  }

  lemma BspHandlingDrops(c: Config, s: State, i: nat, a: Choice, s': State)
    requires c.Valid() && Sized(c, s) && i < c.n && NextBsp(c, s, i, a) == Some(s')
    requires var pc := s.cpu[i].t.pc; pc.BspOwnBusy? || pc.BspHandler?
    requires a.Start? ==> s.cpu[i].t.pc.BspOwnBusy?
    ensures OneDrops(c, s, s', i)
  {
    EnoughRounds(c);
  }

  lemma BspLeavingDrops(c: Config, s: State, i: nat, a: Choice, s': State)
    requires c.Valid() && Sized(c, s) && i < c.n && NextBsp(c, s, i, a) == Some(s')
    requires var pc := s.cpu[i].t.pc; pc.BspTasks? || pc.BspLeave?
    requires a.Start? ==> s.cpu[i].t.pc.BspLeave?
    ensures OneDrops(c, s, s', i)
  {
    EnoughRounds(c);
  }

  lemma BspClosingDrops(c: Config, s: State, i: nat, a: Choice, s': State)
    requires c.Valid() && Sized(c, s) && i < c.n && NextBsp(c, s, i, a) == Some(s')
    requires var pc := s.cpu[i].t.pc; pc.BspUnelect? || pc.BspReset?
    ensures OneDrops(c, s, s', i)
  {
    EnoughRounds(c);
  }

  lemma BspAdvancingDrops(c: Config, s: State, i: nat, a: Choice, s': State)
    requires c.Valid() && Sized(c, s) && i < c.n && NextBsp(c, s, i, a) == Some(s')
    requires var pc := s.cpu[i].t.pc; pc.BspSetMode? || pc.BspAbsent?
    requires s.cpu[i].t.apCount < c.n
    ensures OneDrops(c, s, s', i)
  {
    EnoughRounds(c);
  }

  lemma ReadingDrops(c: Config, s: State, i: nat, a: Choice, s': State)
    requires c.Valid() && Sized(c, s) && i < c.n && NextEntry(c, s, i, a) == Some(s')
    requires var pc := s.cpu[i].t.pc; pc.ReadInside?
    ensures OneDrops(c, s, s', i)
  {
    EnoughRounds(c);
  }

  lemma CountingDrops(c: Config, s: State, i: nat, a: Choice, s': State)
    requires c.Valid() && Sized(c, s) && i < c.n && NextEntry(c, s, i, a) == Some(s')
    requires var pc := s.cpu[i].t.pc; pc.CountIn?
    ensures OneDrops(c, s, s', i)
  {
    EnoughRounds(c);
  }

  lemma JoiningDrops(c: Config, s: State, i: nat, a: Choice, s': State)
    requires c.Valid() && Sized(c, s) && i < c.n && NextEntry(c, s, i, a) == Some(s')
    requires var pc := s.cpu[i].t.pc; pc.FreeOwnBusy? || pc.Held?
    ensures OneDrops(c, s, s', i)
  {
    EnoughRounds(c);
  }

  lemma ElectingDrops(c: Config, s: State, i: nat, a: Choice, s': State)
    requires c.Valid() && Sized(c, s) && i < c.n && NextEntry(c, s, i, a) == Some(s')
    requires var pc := s.cpu[i].t.pc; pc.Elect? || pc.TestBsp?
    ensures OneDrops(c, s, s', i)
  {
    EnoughRounds(c);
  }

  lemma EnoughRounds(c: Config)
    requires c.Valid()
    ensures Rounds(c, c.K()) >= Rounds(c, c.K() - c.E() - 1) + 13 * c.n + 40
    ensures Rounds(c, c.K()) >= 10 * c.K()
  {
    var m := c.K();
    assert Rounds(c, m) == 13 * c.n + 40 + Rounds(c, m - 1);
    assert Rounds(c, m - 1) == 13 * c.n + 40 + Rounds(c, m - 2);
    assert c.mtrr ==> Rounds(c, m - 2) == 13 * c.n + 40 + Rounds(c, m - 3);
    assert c.mtrr ==> Rounds(c, m - 3) == 13 * c.n + 40 + Rounds(c, m - 4);
  }

  lemma ApSignalDrops(c: Config, s: State, i: nat, s': State)
    requires Sized(c, s) && i < c.n && NextAp(c, s, i) == Some(s') && s.cpu[i].t.pc.ApSignal?
    requires ApPcOk(c, s.cpu[i].t) && s.cpu[i].t.bsp != i
    ensures 0 <= s.cpu[i].t.bsp < c.n && TwoDrop(c, s, s', i, s.cpu[i].t.bsp)
  {
  }

  lemma OnePutDrops(c: Config, s: State, i: nat, v: Cpu)
    requires i < |s.cpu| && !v.t.pc.BspScan? && v.present == s.cpu[i].present && Weight(c, v) < Weight(c, s.cpu[i])
    ensures OneDrops(c, s, Put(s, i, v), i)
  {
  }

  lemma TwoPutsDrop(c: Config, s: State, i: nat, v: Cpu, t: nat, w: Cpu)
    requires i < |s.cpu| && !v.t.pc.BspScan? && v.present == s.cpu[i].present
    requires t < |s.cpu| && t != i && w.t == s.cpu[t].t && w.present == s.cpu[t].present
    requires Weight(c, v) + Weight(c, w) < Weight(c, s.cpu[i]) + Weight(c, s.cpu[t])
    ensures TwoDrop(c, s, Put(Put(s, i, v), t, w), i, t)
  {
  }

  /** What BspWait, BspCheck and BspDrain make of CPU v; `other` tells whether CPU j - 1 is another one, and present. */
  ghost function Round(c: Config, v: Cpu, other: bool): Cpu {
    match v.t.pc
    case BspWait(k, left) =>
      if left == 0 then Goto(v, AfterWait(c, k))
      else if v.run == 0 then v
      else Goto(v, BspWait(k, left - 1)).(run := v.run - 1)
    case BspCheck(k, j) =>
      Goto(v, if j == 0 then AfterRelease(c, v.t, k) else if other then BspSignal(k, j) else BspCheck(k, j - 1))
    case BspDrain(j) =>
      Goto(v, if j == 0 then BspTasks else if other then BspDrainTake(j) else BspDrain(j - 1))
    case _ => v
  }

  lemma WaitRank(c: Config, v: Cpu)
    requires c.Valid() && v.t.pc.BspWait? && 1 <= v.t.pc.k <= c.K() && (v.t.pc.left == 0 || v.run > 0)
    ensures Weight(c, Round(c, v, false)) < Weight(c, v) && !Round(c, v, false).t.pc.BspScan?
    ensures Round(c, v, false).present == v.present
  {
    AfterWaitRank(c, v.t, v.t.pc.k);
  }

  lemma RoundRank(c: Config, v: Cpu, other: bool)
    requires c.Valid() && (v.t.pc.BspCheck? || v.t.pc.BspDrain?)
    requires v.t.pc.BspCheck? ==> v.t.pc.k < c.K() && v.t.apCount < c.n
    ensures Weight(c, Round(c, v, other)) < Weight(c, v) && !Round(c, v, other).t.pc.BspScan?
    ensures Round(c, v, other).present == v.present
  {
    if v.t.pc.BspCheck? { AfterReleaseRank(c, v.t, v.t.pc.k); }
  }

  lemma BspWaitDrops(c: Config, s: State, i: nat, a: Choice, s': State)
    requires c.Valid() && Sized(c, s) && i < c.n && NextBsp(c, s, i, a) == Some(s') && s.cpu[i].t.pc.BspWait?
    requires 1 <= s.cpu[i].t.pc.k <= c.K()
    ensures OneDrops(c, s, s', i)
  {
    WaitRank(c, s.cpu[i]);
    assert s' == Put(s, i, Round(c, s.cpu[i], false));
    OnePutDrops(c, s, i, Round(c, s.cpu[i], false));
  }

  lemma BspCheckDrops(c: Config, s: State, i: nat, a: Choice, s': State)
    requires c.Valid() && Sized(c, s) && i < c.n && NextBsp(c, s, i, a) == Some(s') && s.cpu[i].t.pc.BspCheck?
    requires s.cpu[i].t.pc.k < c.K() && s.cpu[i].t.pc.j <= c.n && s.cpu[i].t.apCount < c.n
    ensures OneDrops(c, s, s', i)
  {
    var j := s.cpu[i].t.pc.j;
    var other := j > 0 && j - 1 != i && s.cpu[j - 1].present;
    BspCheckEffect(c, s, i, a, s');
    RoundDrops(c, s, i, other);
  }

  lemma RoundDrops(c: Config, s: State, i: nat, other: bool)
    requires c.Valid() && i < |s.cpu| && (s.cpu[i].t.pc.BspCheck? || s.cpu[i].t.pc.BspDrain?)
    requires s.cpu[i].t.pc.BspCheck? ==> s.cpu[i].t.pc.k < c.K() && s.cpu[i].t.apCount < c.n
    ensures OneDrops(c, s, Put(s, i, Round(c, s.cpu[i], other)), i)
  {
    RoundRank(c, s.cpu[i], other);
    OnePutDrops(c, s, i, Round(c, s.cpu[i], other));
  }

  lemma BspCheckEffect(c: Config, s: State, i: nat, a: Choice, s': State)
    requires Sized(c, s) && i < c.n && NextBsp(c, s, i, a) == Some(s')
      && (s.cpu[i].t.pc.BspCheck? || s.cpu[i].t.pc.BspDrain?)
    requires s.cpu[i].t.pc.j <= c.n
    ensures var j := s.cpu[i].t.pc.j; s' == Put(s, i, Round(c, s.cpu[i], j > 0 && j - 1 != i && s.cpu[j - 1].present))
  {
  }

  lemma BspDrainDrops(c: Config, s: State, i: nat, a: Choice, s': State)
    requires c.Valid() && Sized(c, s) && i < c.n && NextBsp(c, s, i, a) == Some(s') && s.cpu[i].t.pc.BspDrain?
    requires s.cpu[i].t.pc.j <= c.n
    ensures OneDrops(c, s, s', i)
  {
    var j := s.cpu[i].t.pc.j;
    var other := j > 0 && j - 1 != i && s.cpu[j - 1].present;
    BspCheckEffect(c, s, i, a, s');
    RoundDrops(c, s, i, other);
  }

  lemma AfterReleaseRank(c: Config, t: Thread, k: nat)
    requires c.Valid() && k < c.K() && t.apCount < c.n
    ensures Rank(c, t.(pc := AfterRelease(c, t, k))) < Rounds(c, c.K() - k - 1) + 7 + c.n
    ensures !AfterRelease(c, t, k).BspScan?
  {
  }

  lemma AfterWaitRank(c: Config, t: Thread, k: nat)
    requires c.Valid() && 1 <= k <= c.K()
    ensures Rank(c, t.(pc := AfterWait(c, k))) < Rounds(c, c.K() - k) + 5
    ensures !AfterWait(c, k).BspScan?
  {
  }

  lemma BspSignalDrops(c: Config, s: State, i: nat, a: Choice, s': State)
    requires Sized(c, s) && i < c.n && NextBsp(c, s, i, a) == Some(s') && s.cpu[i].t.pc.BspSignal?
    requires 0 < s.cpu[i].t.pc.j <= c.n && s.cpu[i].t.pc.j - 1 != i
    ensures TwoDrop(c, s, s', i, s.cpu[i].t.pc.j - 1)
  {
  }

  lemma DrainLockDrops(c: Config, s: State, i: nat, a: Choice, s': State)
    requires Sized(c, s) && i < c.n && NextBsp(c, s, i, a) == Some(s')
    requires s.cpu[i].t.pc.BspDrainTake? || s.cpu[i].t.pc.BspDrainDrop?
    requires 0 < s.cpu[i].t.pc.j <= c.n && s.cpu[i].t.pc.j - 1 != i
    ensures TwoDrop(c, s, s', i, s.cpu[i].t.pc.j - 1)
  {
  }

  /** Where SmmStartupThisAp returns to. */
  ghost function Back(req: Request): Pc { if req.late then BspTasks else BspHandler }

  lemma ClaimDrops(c: Config, s: State, i: nat, a: Choice, s': State, req: Request)
    requires c.Valid() && i < |s.cpu| && s.cpu[i].t.pc == BspStart(TakeBusy, req) && req.target < |s.cpu|
      && req.target != i
    requires NextTarget(s, i, a, req, Back(req)) == Some(s')
    ensures OneDrops(c, s, s', i) || TwoDrop(c, s, s', i, req.target)
  {
    var v, w := s.cpu[i], s.cpu[req.target];
    if a == Skip || w.busy {
      OnePutDrops(c, s, i, Goto(v, Back(req)));
    } else {
      TwoPutsDrop(c, s, i, Goto(v, BspStart(PutProcedure, req)), req.target, w.(busy := true, job := Claimed));
    }
  }

  lemma FillDrops(c: Config, s: State, i: nat, a: Choice, s': State, req: Request)
    requires c.Valid() && i < |s.cpu| && s.cpu[i].t.pc.BspStart? && s.cpu[i].t.pc.req == req && req.target < |s.cpu|
      && req.target != i
    requires var stage := s.cpu[i].t.pc.stage; stage == PutProcedure || stage == PutParameter
    requires NextTarget(s, i, a, req, Back(req)) == Some(s')
    ensures TwoDrop(c, s, s', i, req.target)
  {
  }

  lemma TokenDrops(c: Config, s: State, i: nat, a: Choice, s': State, req: Request)
    requires c.Valid() && i < |s.cpu| && s.cpu[i].t.pc == BspStart(PutToken, req) && req.target < |s.cpu|
      && req.target != i
    requires NextTarget(s, i, a, req, Back(req)) == Some(s')
    ensures TwoDrop(c, s, s', i, req.target)
  {
    var v := Goto(s.cpu[i], if req.blocking then BspStart(AwaitBusy, req) else Back(req));
    var w := s.cpu[req.target].(run := Release(s.cpu[req.target].run), job := Queued,
                                accepted := s.cpu[req.target].accepted + [req.task]);
    assert s' == Put(Put(s, i, v), req.target, w);
    TwoPutsDrop(c, s, i, v, req.target, w);
  }

  lemma AwaitDrops(c: Config, s: State, i: nat, a: Choice, s': State, req: Request)
    requires c.Valid() && i < |s.cpu| && s.cpu[i].t.pc == BspStart(AwaitBusy, req) && req.target < |s.cpu|
      && req.target != i
    requires NextTarget(s, i, a, req, Back(req)) == Some(s')
    ensures TwoDrop(c, s, s', i, req.target)
  {
  }

  lemma ReturnDrops(c: Config, s: State, i: nat, a: Choice, s': State, req: Request)
    requires c.Valid() && i < |s.cpu| && s.cpu[i].t.pc == BspStart(DropBusy, req) && req.target < |s.cpu|
      && req.target != i
    requires NextTarget(s, i, a, req, Back(req)) == Some(s')
    ensures TwoDrop(c, s, s', i, req.target)
  {
  }

  lemma LookDrops(c: Config, s: State, i: nat, a: Choice, s': State)
    requires c.Valid() && Sized(c, s) && i < c.n && s.cpu[i].t.pc.BspStart? && s.cpu[i].t.pc.stage == LookPresent
    requires NextStart(c, s, i, a) == Some(s')
    ensures OneDrops(c, s, s', i)
  {
  }

  // ---------------------------------------------------------------- the measure drops

  /** The SMI handlers ask for nothing new, no SMI arrives, and the presence scan does not go round
      again while a member is still on its way. */
  ghost predicate Works(s: State, i: nat, a: Choice) {
    && i < |s.cpu| && !s.cpu[i].t.pc.Outside?
    && !(a.Start? && (s.cpu[i].t.pc.BspHandler? || s.cpu[i].t.pc.BspTasks?))
    && !Polling(s, i)
  }

  ghost predicate Polling(s: State, i: nat) {
    && i < |s.cpu| && s.cpu[i].t.pc.BspScan? && s.cpu[i].t.pc.j == 0 && s.cpu[i].t.pc.found <= s.cpu[i].t.apCount
    && exists t :: 0 <= t < |s.cpu| && s.cpu[t].member && !s.cpu[t].present
  }

  lemma {:induction false} BelowGrows(s: State, s': State, j: nat)
    requires j <= |s.cpu| == |s'.cpu| && (forall i :: 0 <= i < j ==> s.cpu[i].present ==> s'.cpu[i].present)
    ensures Below(s, j) <= Below(s', j)
  {
    if j > 0 { BelowGrows(s, s', j - 1); }
  }

  lemma MissedStays(c: Config, s: State, s': State, i: nat)
    requires Sized(c, s) && Mild(s, s', i)
    requires forall j :: 0 <= j < c.n && j != i ==> s'.cpu[j].t == s.cpu[j].t && s'.cpu[j].present == s.cpu[j].present
    requires 0 <= s.leader && s.cpu[s.leader].t.pc.BspScan? ==> !s.cpu[i].t.pc.ApDepart? && !s.cpu[i].t.pc.BspAbsent?
    ensures Missed(c, s') ==> Missed(c, s)
  {
    if Missed(c, s') {
      assert s'.leader == s.leader != i;
      BelowGrows(s, s', s.cpu[s.leader].t.pc.j);
    }
  }

  lemma OneLowers(c: Config, s: State, s': State, i: nat)
    requires Sized(c, s) && OneDrops(c, s, s', i) && (Missed(c, s') ==> Missed(c, s))
    ensures Measure(c, s') < Measure(c, s)
  {
    WeightOne(c, s, i, s'.cpu[i]);
    assert Weights(c, s') == Weights(c, Put(s, i, s'.cpu[i]));
  }

  lemma TwoLower(c: Config, s: State, s': State, i: nat, t: nat)
    requires Sized(c, s) && TwoDrop(c, s, s', i, t) && (Missed(c, s') ==> Missed(c, s))
    ensures Measure(c, s') < Measure(c, s)
  {
    WeightTwo(c, s, i, s'.cpu[i], t, s'.cpu[t]);
    assert Weights(c, s') == Weights(c, Put(Put(s, i, s'.cpu[i]), t, s'.cpu[t]));
  }

  lemma DropLowers(c: Config, s: State, s': State, i: nat, t: nat)
    requires Sized(c, s) && (OneDrops(c, s, s', i) || TwoDrop(c, s, s', i, t))
    requires 0 <= s.leader && s.cpu[s.leader].t.pc.BspScan? ==> !s.cpu[i].t.pc.ApDepart? && !s.cpu[i].t.pc.BspAbsent?
    ensures Measure(c, s') < Measure(c, s)
  {
    MissedStays(c, s, s', i);
    if OneDrops(c, s, s', i) {
      OneLowers(c, s, s', i);
    } else {
      TwoLower(c, s, s', i, t);
    }
  }

  /** What the invariant says of a CPU about to move. */
  lemma ApMoving(c: Config, s: State, i: nat)
    requires Inv(c, s) && i < c.n && IsApPc(s.cpu[i].t.pc)
    ensures i != s.leader && ApPcOk(c, s.cpu[i].t)
    ensures s.cpu[i].t.pc.ApSignal? ==> s.cpu[i].t.bsp == s.leader
    ensures 0 <= s.leader && s.cpu[s.leader].t.pc.BspScan? ==> !s.cpu[i].t.pc.ApDepart?
  {
    assert CpuOk(c, ViewOf(c, s), i, s.cpu[i]);
  }

  lemma BspMoving(c: Config, s: State, i: nat)
    requires Inv(c, s) && i < c.n && IsBspPc(s.cpu[i].t.pc)
    ensures i == s.leader && BspPcOk(c, s.cpu[i].t, i)
    ensures LockedPc(c, s.cpu[i].t) ==> s.cpu[i].t.apCount < c.n
  {
    BspIsLeader(c, s, i);
    MembersPositive(c, s);
  }

  lemma ApLowers(c: Config, s: State, i: nat, s': State)
    requires Inv(c, s) && i < c.n && NextAp(c, s, i) == Some(s')
    ensures Measure(c, s') < Measure(c, s)
  {
    ApMoving(c, s, i);
    ApDrops(c, s, i, s');
    DropLowers(c, s, s', i, if s.leader < 0 then 0 else s.leader);
  }

  lemma ApDrops(c: Config, s: State, i: nat, s': State)
    requires c.Valid() && Sized(c, s) && i < c.n && NextAp(c, s, i) == Some(s')
    requires ApPcOk(c, s.cpu[i].t) && (s.cpu[i].t.pc.ApSignal? ==> s.cpu[i].t.bsp == s.leader) && i != s.leader
    ensures OneDrops(c, s, s', i) || (0 <= s.leader && TwoDrop(c, s, s', i, s.leader))
  {
    match s.cpu[i].t.pc
    case ApReadMode | ApSpin | ApReadBsp | ApArrive => ApArrivingDrops(c, s, i, s');
    case ApSignal(_) => ApSignalDrops(c, s, i, s');
    case ApWait(_) => ApWaitingDrops(c, s, i, s');
    case ApCheck | ApCall | ApFree | ApDepart => ApWorkingDrops(c, s, i, s');
    case _ =>
  }

  lemma EntryDrops(c: Config, s: State, i: nat, a: Choice, s': State)
    requires c.Valid() && Sized(c, s) && i < c.n && NextEntry(c, s, i, a) == Some(s') && !s.cpu[i].t.pc.Outside?
    ensures OneDrops(c, s, s', i)
  {
    match s.cpu[i].t.pc
    case ReadInside(_) => ReadingDrops(c, s, i, a, s');
    case CountIn(_) => CountingDrops(c, s, i, a, s');
    case FreeOwnBusy(_) | Held => JoiningDrops(c, s, i, a, s');
    case Elect | TestBsp => ElectingDrops(c, s, i, a, s');
    case _ =>
  }

  lemma StartDrops(c: Config, s: State, i: nat, a: Choice, s': State)
    requires c.Valid() && Sized(c, s) && i < c.n && s.cpu[i].t.pc.BspStart? && NextStart(c, s, i, a) == Some(s')
    ensures OneDrops(c, s, s', i) || TwoDrop(c, s, s', i, s.cpu[i].t.pc.req.target)
  {
    var req := s.cpu[i].t.pc.req;
    match s.cpu[i].t.pc.stage
    case LookPresent => LookDrops(c, s, i, a, s');
    case TakeBusy => ClaimDrops(c, s, i, a, s', req);
    case PutProcedure | PutParameter => FillDrops(c, s, i, a, s', req);
    case PutToken => TokenDrops(c, s, i, a, s', req);
    case AwaitBusy => AwaitDrops(c, s, i, a, s', req);
    case DropBusy => ReturnDrops(c, s, i, a, s', req);
  }

  /** The CPU a BSP step writes to, where it writes to one. */
  ghost function Other(l: Thread): nat {
    if l.pc.BspStart? then l.pc.req.target
    else if (l.pc.BspSignal? || l.pc.BspDrainTake? || l.pc.BspDrainDrop?) && l.pc.j > 0 then l.pc.j - 1
    else 0
  }

  lemma BspDrops(c: Config, s: State, i: nat, a: Choice, s': State)
    requires c.Valid() && Sized(c, s) && i < c.n && NextBsp(c, s, i, a) == Some(s') && Works(s, i, a)
    requires BspPcOk(c, s.cpu[i].t, i) && (LockedPc(c, s.cpu[i].t) ==> s.cpu[i].t.apCount < c.n)
    requires !s.cpu[i].t.pc.BspLock? && !s.cpu[i].t.pc.BspScan? && !s.cpu[i].t.pc.BspUnsync?
    ensures OneDrops(c, s, s', i) || TwoDrop(c, s, s', i, Other(s.cpu[i].t))
  {
    match s.cpu[i].t.pc
    case BspReadMode | BspEnter | BspPresent => BspOpeningDrops(c, s, i, a, s');
    case BspClearStatus | BspSync => BspClearingDrops(c, s, i, a, s');
    case BspWait(_, _) => BspWaitDrops(c, s, i, a, s');
    case BspCheck(_, _) => BspCheckDrops(c, s, i, a, s');
    case BspSignal(_, _) => BspSignalDrops(c, s, i, a, s');
    case BspOwnBusy | BspHandler => BspHandlingDrops(c, s, i, a, s');
    case BspStart(_, _) => StartDrops(c, s, i, a, s');
    case BspDrain(_) => BspDrainDrops(c, s, i, a, s');
    case BspDrainTake(_) | BspDrainDrop(_) => DrainLockDrops(c, s, i, a, s');
    case BspTasks | BspLeave => BspLeavingDrops(c, s, i, a, s');
    case BspSetMode | BspAbsent => BspAdvancingDrops(c, s, i, a, s');
    case BspUnelect | BspReset => BspClosingDrops(c, s, i, a, s');
    case _ =>
  }

  lemma {:induction false} BelowRest(s: State, j: nat)
    requires j <= |s.cpu|
    ensures Below(s, j) + Sum(Presence(s, j)) == Sum(Presence(s, 0))
  {
    if j > 0 {
      BelowRest(s, j - 1);
      PresenceNext(s, j);
    }
  }

  /** With every member present the next pass of the scan finds them all. */
  lemma BelowAll(c: Config, s: State)
    requires Inv(c, s) && 0 <= s.leader && s.cpu[s.leader].t.pc.BspScan?
    requires forall t :: 0 <= t < c.n && s.cpu[t].member ==> s.cpu[t].present
    ensures Below(s, c.n) == s.cpu[s.leader].t.apCount + 1
  {
    BelowRest(s, c.n);
    forall t | 0 <= t < c.n ensures s.cpu[t].present == s.cpu[t].member {
      assert CpuOk(c, ViewOf(c, s), t, s.cpu[t]);
    }
    assert Presence(s, 0) == Members(s);
  }

  lemma {:induction false} BelowSame(s: State, s': State, j: nat)
    requires j <= |s.cpu| == |s'.cpu| && (forall i :: 0 <= i < j ==> s.cpu[i].present == s'.cpu[i].present)
    ensures Below(s, j) == Below(s', j)
  {
    if j > 0 { BelowSame(s, s', j - 1); }
  }

  lemma ScanEffect(c: Config, s: State, i: nat, a: Choice, s': State)
    requires Sized(c, s) && i < c.n && s.cpu[i].t.pc.BspScan? && s.cpu[i].t.pc.j <= c.n
      && NextBsp(c, s, i, a) == Some(s')
    ensures var j, f := s.cpu[i].t.pc.j, s.cpu[i].t.pc.found;
      s' == Put(s, i, Goto(s.cpu[i], if j > 0 then BspScan(j - 1, if s.cpu[j - 1].present then f + 1 else f)
                                     else if f > s.cpu[i].t.apCount then BspLeave else BspScan(c.n, 0)))
  {
  }

  lemma ScanPassLowers(c: Config, s: State, s': State, i: nat)
    requires c.Valid() && Sized(c, s) && i < c.n && s.leader == i && s.cpu[i].t.pc.BspScan?
      && 0 < s.cpu[i].t.pc.j <= c.n
    requires var j, f := s.cpu[i].t.pc.j, s.cpu[i].t.pc.found;
      s' == Put(s, i, Goto(s.cpu[i], BspScan(j - 1, if s.cpu[j - 1].present then f + 1 else f)))
    ensures Measure(c, s') < Measure(c, s)
  {
    WeightOne(c, s, i, s'.cpu[i]);
    BelowSame(s, s', s.cpu[i].t.pc.j - 1);
  }

  lemma ScanAgainLowers(c: Config, s: State, s': State, i: nat)
    requires c.Valid() && Sized(c, s) && i < c.n && s.leader == i && s.cpu[i].t.pc.BspScan? && s.cpu[i].t.pc.j == 0
    requires s.cpu[i].t.pc.found <= s.cpu[i].t.apCount && s' == Put(s, i, Goto(s.cpu[i], BspScan(c.n, 0)))
    requires Below(s, c.n) == s.cpu[i].t.apCount + 1
    ensures Measure(c, s') < Measure(c, s)
  {
    WeightOne(c, s, i, s'.cpu[i]);
    BelowSame(s, s', c.n);
  }

  lemma ScanDoneLowers(c: Config, s: State, s': State, i: nat)
    requires c.Valid() && Sized(c, s) && i < c.n && s.leader == i && s.cpu[i].t.pc.BspScan? && s.cpu[i].t.pc.j == 0
    requires s' == Put(s, i, Goto(s.cpu[i], BspLeave))
    ensures Measure(c, s') < Measure(c, s)
  {
    OnePutDrops(c, s, i, Goto(s.cpu[i], BspLeave));
    OneLowers(c, s, s', i);
  }

  lemma ScanLowers(c: Config, s: State, i: nat, a: Choice, s': State)
    requires Inv(c, s) && i < c.n && s.cpu[i].t.pc.BspScan? && NextBsp(c, s, i, a) == Some(s') && !Polling(s, i)
    ensures Measure(c, s') < Measure(c, s)
  {
    BspMoving(c, s, i);
    ScanEffect(c, s, i, a, s');
    if s.cpu[i].t.pc.j > 0 {
      ScanPassLowers(c, s, s', i);
    } else {
      if s.cpu[i].t.pc.found <= s.cpu[i].t.apCount {
        BelowAll(c, s);
        ScanAgainLowers(c, s, s', i);
      } else {
        ScanDoneLowers(c, s, s', i);
      }
    }
  }

  lemma LockLowers(c: Config, s: State, i: nat, a: Choice, s': State)
    requires c.Valid() && Sized(c, s) && i < c.n && s.leader == i && s.cpu[i].t.pc.BspLock?
      && NextBsp(c, s, i, a) == Some(s')
    requires s.counter <= c.n
    ensures Measure(c, s') < Measure(c, s)
  {
    var ap := if s.counter == 0 then 0 else s.counter - 1;
    var v := Locked(c, s.cpu[i], ap);
    assert s' == Put(s, i, v).(counter := LOCKED);
    LockRank(c, s.cpu[i], ap);
    LockedMeasure(c, s, i, ap, s');
  }

  lemma LockedMeasure(c: Config, s: State, i: nat, ap: nat, s': State)
    requires c.Valid() && Sized(c, s) && i < c.n && s.leader == i && s.cpu[i].t.pc.BspLock?
    requires s' == Put(s, i, Locked(c, s.cpu[i], ap)).(counter := LOCKED)
    requires var v := Locked(c, s.cpu[i], ap);
      && Weight(c, v) + (if Early(c, v.t) then 0 else c.n + 2) < Weight(c, s.cpu[i])
      && (v.t.pc.BspScan? ==> !Early(c, v.t))
    ensures Measure(c, s') < Measure(c, s)
  {
    var v := Locked(c, s.cpu[i], ap);
    WeightOne(c, s, i, v);
    assert Weights(c, s') == Weights(c, Put(s, i, v));
  }

  ghost function Locked(c: Config, v: Cpu, ap: nat): Cpu {
    v.(t := v.t.(pc := if Early(c, v.t) then BspWait(1, ap) else BspScan(c.n, 0), apCount := ap))
  }

  /** The pass of the scan that begins may be a vain one: it costs c.n + 2 more. */
  lemma LockRank(c: Config, v: Cpu, ap: nat)
    requires c.Valid() && v.t.pc.BspLock? && ap <= c.n
    ensures Weight(c, Locked(c, v, ap)) + (if Early(c, v.t) then 0 else c.n + 2) < Weight(c, v)
    ensures Locked(c, v, ap).t.pc.BspScan? ==> !Early(c, v.t)
  {
    assert Rounds(c, c.K()) == 13 * c.n + 40 + Rounds(c, c.K() - 1);
  }

  lemma UnsyncLowers(c: Config, s: State, i: nat, a: Choice, s': State)
    requires c.Valid() && Sized(c, s) && i < c.n && s.cpu[i].t.pc.BspUnsync? && NextBsp(c, s, i, a) == Some(s')
    ensures Measure(c, s') < Measure(c, s)
  {
    var v := Goto(s.cpu[i], Held);
    WeightOne(c, s, i, v);
    assert s' == EndRun(Put(s, i, v).(inSync := false));
    assert Weights(c, s') == Weights(c, Put(s, i, v));
  }

  lemma BspLowers(c: Config, s: State, i: nat, a: Choice, s': State)
    requires Inv(c, s) && i < c.n && IsBspPc(s.cpu[i].t.pc) && NextBsp(c, s, i, a) == Some(s') && Works(s, i, a)
    ensures Measure(c, s') < Measure(c, s)
  {
    BspMoving(c, s, i);
    if s.cpu[i].t.pc.BspScan? {
      ScanLowers(c, s, i, a, s');
    } else if s.cpu[i].t.pc.BspUnsync? {
      UnsyncLowers(c, s, i, a, s');
    } else if s.cpu[i].t.pc.BspLock? {
      LockBound(c, s);
      LockLowers(c, s, i, a, s');
    } else {
      BspDrops(c, s, i, a, s');
      DropLowers(c, s, s', i, Other(s.cpu[i].t));
    }
  }

  lemma LockBound(c: Config, s: State)
    requires Inv(c, s) && 0 <= s.leader && s.cpu[s.leader].t.pc.BspLock?
    ensures s.counter <= c.n
  {
    MembersPositive(c, s);
  }

  /** Every working step lowers the measure. */
  lemma MeasureDrops(c: Config, s: State, i: nat, a: Choice, s': State)
    requires Inv(c, s) && Works(s, i, a) && Next(c, s, i, a) == Some(s')
    ensures Measure(c, s') < Measure(c, s)
  {
    if IsApPc(s.cpu[i].t.pc) {
      ApLowers(c, s, i, s');
    } else if IsBspPc(s.cpu[i].t.pc) {
      BspLowers(c, s, i, a, s');
    } else {
      EntryDrops(c, s, i, a, s');
      DropLowers(c, s, s', i, 0);
    }
  }

  // ---------------------------------------------------------------- no deadlock

  /** CPU i can move. */
  ghost predicate CanWork(c: Config, s: State, i: nat)
    requires Sized(c, s)
  {
    i < c.n && Works(s, i, Go) && Next(c, s, i, Go).Some?
  }

  /** A counted CPU that is not held up by a flag or a semaphore. */
  ghost predicate Goes(c: Config, inside: bool, v: Cpu) {
    var pc := v.t.pc;
    || pc.FreeOwnBusy? || pc.Elect? || pc.TestBsp? || pc.ApReadMode? || pc.ApReadBsp? || pc.ApArrive?
    || pc.ApCheck? || pc.ApCall? || pc.ApFree? || pc.ApDepart?
    || (pc.ApSpin? && inside) || (pc.ApWait? && v.run > 0) || (pc.ApSignal? && 0 <= v.t.bsp < c.n)
  }

  lemma GoesCanWork(c: Config, s: State, i: nat)
    requires Sized(c, s) && i < c.n && Goes(c, s.insideSmm, s.cpu[i])
    ensures CanWork(c, s, i)
  {
  }

  ghost predicate Blocked(c: Config, s: State, b: nat)
    requires Sized(c, s) && b < c.n
  {
    var v := s.cpu[b];
    || (v.t.pc.BspWait? && v.t.pc.left > 0 && v.run == 0)
    || (v.t.pc.BspDrainTake? && 0 < v.t.pc.j <= c.n && s.cpu[v.t.pc.j - 1].busy)
    || (v.t.pc.BspStart? && v.t.pc.stage == AwaitBusy && v.t.pc.req.target < c.n && s.cpu[v.t.pc.req.target].busy)
    || Polling(s, b)
  }

  lemma BspCanWork(c: Config, s: State, b: nat)
    requires Sized(c, s) && b < c.n && (s.cpu[b].t.pc.TestBsp? || IsBspPc(s.cpu[b].t.pc)) && BspPcOk(c, s.cpu[b].t, b)
    requires !Blocked(c, s, b) && (s.cpu[b].t.pc.BspOwnBusy? ==> !s.cpu[b].busy)
    ensures CanWork(c, s, b)
  {
    if s.cpu[b].t.pc.BspStart? { StartCanMove(c, s, b); }
  }

  lemma StartCanMove(c: Config, s: State, b: nat)
    requires Sized(c, s) && b < c.n && s.cpu[b].t.pc.BspStart? && BspPcOk(c, s.cpu[b].t, b) && !Blocked(c, s, b)
    ensures NextStart(c, s, b, Go).Some?
  {
  }

  /** A wait that finds its semaphore at zero waits for a CPU that can move. */
  lemma WaitedForGoes(c: Config, s: State, i: nat)
    requires Inv(c, s) && 0 <= s.leader && s.cpu[s.leader].t.pc.BspWait? && i < c.n && i != s.leader && s.cpu[i].member
    requires Owing(c, s)[i] == 0
    ensures Goes(c, s.insideSmm, s.cpu[i])
  {
    assert CpuOk(c, ViewOf(c, s), i, s.cpu[i]);
  }

  lemma BusyGoes(c: Config, s: State, t: nat)
    requires Inv(c, s) && 0 <= s.leader && t < c.n && t != s.leader && s.cpu[t].busy
    requires var l := s.cpu[s.leader].t;
      l.pc == BspDrainTake(t + 1) || (l.pc.BspStart? && l.pc.stage == AwaitBusy && l.pc.req.target == t)
    ensures Goes(c, s.insideSmm, s.cpu[t])
  {
    TouchedIsAp(c, s, t);
  }

  lemma AbsentGoes(c: Config, s: State, t: nat)
    requires Inv(c, s) && 0 <= s.leader && s.cpu[s.leader].t.pc.BspScan? && t < c.n && s.cpu[t].member
      && !s.cpu[t].present
    ensures Goes(c, s.insideSmm, s.cpu[t])
  {
    assert CpuOk(c, ViewOf(c, s), t, s.cpu[t]);
  }

  lemma MissingSignal(c: Config, s: State) returns (i: nat)
    requires Inv(c, s) && 0 <= s.leader && s.cpu[s.leader].t.pc.BspWait? && s.cpu[s.leader].t.pc.left > 0
      && s.cpu[s.leader].run == 0
    ensures i < c.n && i != s.leader && s.cpu[i].member && Owing(c, s)[i] == 0
  {
    LeaderIsMember(c, s);
    var ms := Members(s)[s.leader := 0];
    SumUpdate(Members(s), s.leader, 0);
    i := SumShortfall(Owing(c, s), ms);
    OwedIsBit(c, s, i);
  }

  /** While there is a BSP, some CPU can move: the rendezvous cannot deadlock. */
  lemma NoDeadlock(c: Config, s: State) returns (i: nat)
    requires Inv(c, s) && 0 <= s.leader
    ensures CanWork(c, s, i)
  {
    i := s.leader;
    LeaderMoving(c, s);
    if !Blocked(c, s, i) {
      BspCanWork(c, s, i);
    } else {
      i := BlockedOn(c, s);
      GoesCanWork(c, s, i);
    }
  }

  lemma LeaderMoving(c: Config, s: State)
    requires Inv(c, s) && 0 <= s.leader
    ensures var b := s.cpu[s.leader];
      && (b.t.pc.TestBsp? || IsBspPc(b.t.pc)) && BspPcOk(c, b.t, s.leader) && (b.t.pc.BspOwnBusy? ==> !b.busy)
  {
  }

  /** Whom a BSP that cannot move is waiting for. */
  lemma BlockedOn(c: Config, s: State) returns (i: nat)
    requires Inv(c, s) && 0 <= s.leader && Blocked(c, s, s.leader)
    ensures i < c.n && Goes(c, s.insideSmm, s.cpu[i])
  {
    LeaderMoving(c, s);
    var pc := s.cpu[s.leader].t.pc;
    if pc.BspWait? {
      i := MissingSignal(c, s);
      WaitedForGoes(c, s, i);
    } else if pc.BspScan? {
      i :| 0 <= i < c.n && s.cpu[i].member && !s.cpu[i].present;
      AbsentGoes(c, s, i);
    } else if pc.BspStart? {
      i := pc.req.target;
      BusyGoes(c, s, i);
    } else {
      i := pc.j - 1;
      BusyGoes(c, s, i);
    }
  }

  // ---------------------------------------------------------------- every run ends

  /** A stretch of a run: only working steps. */
  ghost predicate WorkingStep(c: Config, s: State, s': State) {
    Sized(c, s) && exists i: nat, a :: i < c.n && Works(s, i, a) && Next(c, s, i, a) == Some(s')
  }

  ghost predicate Stretch(c: Config, tr: seq<State>) {
    |tr| > 0 && forall k {:trigger tr[k]} :: 0 < k < |tr| ==> WorkingStep(c, tr[k - 1], tr[k])
  }

  lemma WeightPositive(c: Config, s: State, i: nat)
    requires Inv(c, s) && i < c.n
    ensures Weight(c, s.cpu[i]) >= 0
  {
    assert CpuOk(c, ViewOf(c, s), i, s.cpu[i]);
  }

  lemma MeasurePositive(c: Config, s: State)
    requires Inv(c, s)
    ensures Measure(c, s) >= 0
  {
    forall i | 0 <= i < c.n ensures Weights(c, s)[i] >= 0 { WeightPositive(c, s, i); }
    var zeros := seq(c.n, i => 0);
    SumZero(zeros);
    SumMonotone(zeros, Weights(c, s));
  }

  lemma WorkingStepLowers(c: Config, s: State, s': State)
    requires Inv(c, s) && WorkingStep(c, s, s')
    ensures Inv(c, s') && Measure(c, s') < Measure(c, s)
  {
    var i: nat, a :| i < c.n && Works(s, i, a) && Next(c, s, i, a) == Some(s');
    NextKeepsInv(c, s, i, a, s');
    MeasureDrops(c, s, i, a, s');
  }

  lemma StretchPrefix(c: Config, tr: seq<State>)
    requires Stretch(c, tr) && |tr| > 1
    ensures Stretch(c, tr[..|tr| - 1]) && WorkingStep(c, tr[|tr| - 2], tr[|tr| - 1])
  {
    var n := |tr| - 1;
    assert WorkingStep(c, tr[n - 1], tr[n]);
    forall k | 0 < k < n ensures WorkingStep(c, tr[..n][k - 1], tr[..n][k]) {
      assert WorkingStep(c, tr[k - 1], tr[k]);
    }
  }

  lemma {:induction false} StretchInv(c: Config, tr: seq<State>)
    requires Stretch(c, tr) && Inv(c, tr[0])
    ensures Inv(c, tr[|tr| - 1]) && Measure(c, tr[|tr| - 1]) + |tr| - 1 <= Measure(c, tr[0])
  {
    var n := |tr| - 1;
    if n > 0 {
      StretchPrefix(c, tr);
      StretchInv(c, tr[..n]);
      WorkingStepLowers(c, tr[n - 1], tr[n]);
    }
  }

  /** Without new SMIs and new procedures, no schedule whatever makes more working steps than the measure
      of the state it starts from. */
  lemma StretchIsFinite(c: Config, tr: seq<State>)
    requires Stretch(c, tr) && Reachable(c, tr[0])
    ensures |tr| - 1 <= Measure(c, tr[0])
  {
    ReachableInv(c, tr[0]);
    StretchInv(c, tr);
    MeasurePositive(c, tr[|tr| - 1]);
  }

  /** From every state with a BSP the run can be brought to its end, and it ends quiet. */
  lemma RunCompletes(c: Config, s: State) returns (tr: seq<State>)
    requires Reachable(c, s) && 0 <= s.leader
    ensures Stretch(c, tr) && tr[0] == s && Quiet(c, tr[|tr| - 1])
  {
    ReachableInv(c, s);
    tr := ToTheEnd(c, s);
  }

  lemma {:induction false} ToTheEnd(c: Config, s: State) returns (tr: seq<State>)
    requires Inv(c, s) && 0 <= s.leader
    ensures Stretch(c, tr) && tr[0] == s && Quiet(c, tr[|tr| - 1])
    decreases Measure(c, s)
  {
    var s', last := OneOn(c, s);
    if last {
      tr := [s, s'];
    } else {
      MeasurePositive(c, s);
      MeasurePositive(c, s');
      tr := ToTheEnd(c, s');
      Prepend(c, s, tr);
      tr := [s] + tr;
    }
  }

  lemma Prepend(c: Config, s: State, tr: seq<State>)
    requires Stretch(c, tr) && WorkingStep(c, s, tr[0])
    ensures Stretch(c, [s] + tr)
  {
    var all := [s] + tr;
    forall k | 0 < k < |all| ensures WorkingStep(c, all[k - 1], all[k]) {
      if k > 1 { assert tr[k - 1] == all[k] && tr[k - 2] == all[k - 1]; }
    }
  }

  /** One working step on; it is the last one when the BSP makes its last write. */
  lemma OneOn(c: Config, s: State) returns (s': State, last: bool)
    requires Inv(c, s) && 0 <= s.leader
    ensures WorkingStep(c, s, s')
    ensures if last then Quiet(c, s') else Inv(c, s') && 0 <= s'.leader && Measure(c, s') < Measure(c, s)
  {
    var i := NoDeadlock(c, s);
    s' := Next(c, s, i, Go).value;
    last := s.cpu[i].t.pc.BspUnsync?;
    if last {
      BspIsLeader(c, s, i);
      BspUnsyncStep(c, s, Go, s');
    } else {
      WorkingStepLowers(c, s, s');
      LeaderStays(c, s, i, Go, s');
    }
  }

  /** The elected CPU stays the BSP until the end of the run. */
  lemma LeaderStays(c: Config, s: State, i: nat, a: Choice, s': State)
    requires Sized(c, s) && i < c.n && Next(c, s, i, a) == Some(s') && !s.cpu[i].t.pc.BspUnsync? && 0 <= s.leader
    ensures 0 <= s'.leader
  {
    if IsApPc(s.cpu[i].t.pc) {
      LeaderStaysUnderAp(c, s, i, s');
    } else if IsBspPc(s.cpu[i].t.pc) {
      LeaderStaysUnderBsp(c, s, i, a, s');
    }
  }

  lemma LeaderStaysUnderAp(c: Config, s: State, i: nat, s': State)
    requires Sized(c, s) && i < c.n && NextAp(c, s, i) == Some(s')
    ensures s'.leader == s.leader
  {
  }

  lemma LeaderStaysUnderBsp(c: Config, s: State, i: nat, a: Choice, s': State)
    requires Sized(c, s) && i < c.n && NextBsp(c, s, i, a) == Some(s') && !s.cpu[i].t.pc.BspUnsync?
    ensures s'.leader == s.leader
  {
    if s.cpu[i].t.pc.BspStart? { LeaderStaysUnderStart(c, s, i, a, s'); }
  }

  lemma LeaderStaysUnderStart(c: Config, s: State, i: nat, a: Choice, s': State)
    requires Sized(c, s) && i < c.n && s.cpu[i].t.pc.BspStart? && NextStart(c, s, i, a) == Some(s')
    ensures s'.leader == s.leader
  {
  }

  /** No CPU can make a working step. */
  ghost predicate Stuck(c: Config, s: State) {
    Sized(c, s) && forall i: nat, a {:trigger Works(s, i, a)} :: i < c.n && Works(s, i, a) ==> Next(c, s, i, a).None?
  }

  /** The BSP gives up its part with its last write only. */
  lemma LastStepIsQuiet(c: Config, s: State, s': State)
    requires Inv(c, s) && 0 <= s.leader && WorkingStep(c, s, s') && s'.leader < 0
    ensures Quiet(c, s')
  {
    var i: nat, a :| i < c.n && Works(s, i, a) && Next(c, s, i, a) == Some(s');
    if s.cpu[i].t.pc.BspUnsync? {
      BspIsLeader(c, s, i);
      BspUnsyncStep(c, s, a, s');
    } else {
      LeaderStays(c, s, i, a, s');
    }
  }

  /** Before an election the machine stands still only when every CPU is outside or waits for a BSP. */
  lemma StandstillWithoutBsp(c: Config, s: State, i: nat)
    requires Inv(c, s) && s.leader < 0 && i < c.n && !CanWork(c, s, i)
    ensures s.cpu[i].t.pc.Outside? || s.cpu[i].t.pc.ApSpin?
  {
    assert CpuOk(c, ViewOf(c, s), i, s.cpu[i]);
  }
}
