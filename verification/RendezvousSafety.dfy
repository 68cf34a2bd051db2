/** Every step of the rendezvous machine keeps its invariant. */
module RendezvousSafety {
  import opened Common
  import opened Sums
  import opened Rendezvous
  import opened RendezvousInvariant

  lemma QuietIsInv(c: Config, s: State)
    requires c.Valid() && Quiet(c, s)
    ensures Inv(c, s)
  {
    SumZero(Members(s));
  }

  // ---------------------------------------------------------------- sums over the CPUs

  lemma OwedIsBit(c: Config, s: State, i: nat)
    requires Inv(c, s) && 0 <= s.leader && i < c.n
    ensures 0 <= Owing(c, s)[i] <= 1
    ensures !s.cpu[i].member || i == s.leader ==> Owing(c, s)[i] == 0
  {
    assert CpuOk(c, ViewOf(c, s), i, s.cpu[i]);
  }

  /** A step that touches only CPU i, and perhaps the Run of the BSP. */
  ghost predicate OnlyAt(c: Config, s: State, s': State, i: nat)
    requires Sized(c, s) && c.Valid() && i < c.n
  {
    && Sized(c, s') && ViewOf(c, s') == ViewOf(c, s) && i != s.leader
    && s'.cpu[i].member == s.cpu[i].member
    && (forall j :: 0 <= j < c.n && j != i && j != s.leader ==> s'.cpu[j] == s.cpu[j])
    && (0 <= s.leader ==> s'.cpu[s.leader].(run := 0) == s.cpu[s.leader].(run := 0))
  }

  lemma SumsAfter(c: Config, s: State, s': State, i: nat)
    requires c.Valid() && Sized(c, s) && i < c.n && OnlyAt(c, s, s', i)
    ensures Sum(Owing(c, s')) == Sum(Owing(c, s)) - Owing(c, s)[i] + Owing(c, s')[i]
    ensures Sum(Members(s')) == Sum(Members(s))
  {
    assert Owing(c, s') == Owing(c, s)[i := Owing(c, s')[i]];
    SumUpdate(Owing(c, s), i, Owing(c, s')[i]);
    assert Members(s') == Members(s);
  }

  /** No semaphore reaches the locked value, so every release counts. */
  lemma RunFits(c: Config, s: State, i: nat)
    requires Inv(c, s) && i < c.n
    ensures s.cpu[i].run < LOCKED
  {
    assert CpuOk(c, ViewOf(c, s), i, s.cpu[i]);
    if i == s.leader {
      forall j | 0 <= j < c.n ensures 0 <= Owing(c, s)[j] <= 1 { OwedIsBit(c, s, j); }
      SumBounds(Owing(c, s), 0, 1);
    }
  }

  // ---------------------------------------------------------------- AP steps

  /** The other CPUs stay as good as they were. */
  lemma OthersOk(c: Config, s: State, s': State, i: nat)
    requires c.Valid() && Sized(c, s) && i < c.n && OnlyAt(c, s, s', i)
    requires CpusOk(c, s) && CpuOk(c, ViewOf(c, s'), i, s'.cpu[i])
    ensures CpusOk(c, s')
  {
    forall j | 0 <= j < c.n ensures CpuOk(c, ViewOf(c, s'), j, s'.cpu[j]) {
      assert CpuOk(c, ViewOf(c, s), j, s.cpu[j]);
    }
  }

  lemma ScanAfter(c: Config, s: State, s': State, i: nat)
    requires c.Valid() && Sized(c, s) && i < c.n && OnlyAt(c, s, s', i) && 0 <= s.leader
    requires s.cpu[i].present ==> s'.cpu[i].present || !s.cpu[s.leader].t.pc.BspScan?
    requires ScanOk(s.cpu[s.leader].t, s)
    ensures ScanOk(s.cpu[s.leader].t, s')
  {
    var lb := s.cpu[s.leader].t;
    if lb.pc.BspScan? && lb.pc.j <= c.n {
      SumMonotone(Presence(s, lb.pc.j), Presence(s', lb.pc.j));
    }
  }

  /** What is left to show of an AP step once its own CPU is known to be fine. */
  lemma ApFrame(c: Config, s: State, s': State, i: nat)
    requires c.Valid() && Sized(c, s) && CpusOk(c, s) && GlobalsOk(c, s) && i < c.n && OnlyAt(c, s, s', i)
    requires CpuOk(c, ViewOf(c, s), i, s'.cpu[i])
    requires SharedOf(s').(members := 0) == SharedOf(s).(members := 0) && s'.cpu[i].task == s.cpu[i].task
    requires 0 <= s.leader ==>
      s'.cpu[s.leader].run + Owed(c, ViewOf(c, s), i, s.cpu[i]) == s.cpu[s.leader].run
        + Owed(c, ViewOf(c, s), i, s'.cpu[i])
    requires s.cpu[i].present ==> s'.cpu[i].present || !ViewOf(c, s).lb.pc.BspScan?
    ensures Inv(c, s')
  {
    OthersOk(c, s, s', i);
    SumsAfter(c, s, s', i);
    assert SharedOf(s') == SharedOf(s);
    if 0 <= s.leader {
      ScanAfter(c, s, s', i);
      var b, b' := s.cpu[s.leader], s'.cpu[s.leader];
      assert b'.t == b.t && b'.present == b.present && b'.busy == b.busy;
      assert RequestOk(b'.t, s');
      assert TokensOk(b'.t, b'.run, Sum(Owing(c, s')));
    }
  }

  lemma ApReadModeLocal(c: Config, x: View, i: int, v: Cpu, v': Cpu)
    requires CpuOk(c, x, i, v) && v.member && i != x.leader && v.t.pc.ApReadMode?
    requires x.leader < 0 || (BeforeSetMode(c, x.lb) ==> x.effMode == x.lb.mode)
    requires x.leader < 0 || BspPcOk(c, x.lb, x.leader)
    requires v' == v.(t := v.t.(pc := ApSpin, mode := x.effMode))
    ensures CpuOk(c, x, i, v') && Owed(c, x, i, v') == Owed(c, x, i, v)
  {
  }

  lemma ApReadModeStep(c: Config, s: State, i: nat, s': State)
    requires Inv(c, s) && i < c.n && s.cpu[i].t.pc.ApReadMode? && NextAp(c, s, i) == Some(s')
    ensures Inv(c, s')
  {
    assert CpuOk(c, ViewOf(c, s), i, s.cpu[i]);
    ApReadModeLocal(c, ViewOf(c, s), i, s.cpu[i], s'.cpu[i]);
    ApFrame(c, s, s', i);
  }

  lemma ApSpinLocal(c: Config, x: View, i: int, v: Cpu, v': Cpu)
    requires CpuOk(c, x, i, v) && v.member && i != x.leader && v.t.pc.ApSpin?
    requires 0 <= x.leader && Entered(x.lb.pc)
    requires v' == Goto(v, ApReadBsp)
    ensures CpuOk(c, x, i, v') && Owed(c, x, i, v') == Owed(c, x, i, v)
  {
  }

  lemma ApSpinStep(c: Config, s: State, i: nat, s': State)
    requires Inv(c, s) && i < c.n && s.cpu[i].t.pc.ApSpin? && NextAp(c, s, i) == Some(s')
    ensures Inv(c, s')
  {
    assert CpuOk(c, ViewOf(c, s), i, s.cpu[i]);
    ApSpinLocal(c, ViewOf(c, s), i, s.cpu[i], s'.cpu[i]);
    ApFrame(c, s, s', i);
  }

  lemma ApReadBspLocal(c: Config, x: View, i: int, v: Cpu, v': Cpu)
    requires CpuOk(c, x, i, v) && v.member && i != x.leader && v.t.pc.ApReadBsp?
    requires v' == v.(t := v.t.(pc := ApArrive, bsp := x.leader))
    ensures CpuOk(c, x, i, v') && Owed(c, x, i, v') == Owed(c, x, i, v)
  {
  }

  lemma ApReadBspStep(c: Config, s: State, i: nat, s': State)
    requires Inv(c, s) && i < c.n && s.cpu[i].t.pc.ApReadBsp? && NextAp(c, s, i) == Some(s')
    ensures Inv(c, s')
  {
    assert CpuOk(c, ViewOf(c, s), i, s.cpu[i]);
    ApReadBspLocal(c, ViewOf(c, s), i, s.cpu[i], s'.cpu[i]);
    ApFrame(c, s, s', i);
  }

  lemma ApArriveLocal(c: Config, x: View, i: int, v: Cpu, v': Cpu)
    requires CpuOk(c, x, i, v) && v.member && i != x.leader && v.t.pc.ApArrive?
    requires 0 <= x.leader && BspPcOk(c, x.lb, x.leader)
    requires v' == Goto(v, if Early(c, v.t) then ApSignal(1) else ApWait(1)).(present := true)
    ensures CpuOk(c, x, i, v') && Owed(c, x, i, v') == Owed(c, x, i, v)
  {
  }

  lemma ApArriveStep(c: Config, s: State, i: nat, s': State)
    requires Inv(c, s) && i < c.n && s.cpu[i].t.pc.ApArrive? && NextAp(c, s, i) == Some(s')
    ensures Inv(c, s')
  {
    assert CpuOk(c, ViewOf(c, s), i, s.cpu[i]);
    ApArriveLocal(c, ViewOf(c, s), i, s.cpu[i], s'.cpu[i]);
    ApFrame(c, s, s', i);
  }

  lemma ApSignalLocal(c: Config, x: View, i: int, v: Cpu, v': Cpu)
    requires CpuOk(c, x, i, v) && v.member && i != x.leader && v.t.pc.ApSignal?
    requires v' == Goto(v, if v.t.pc.k == c.K() then Held else ApWait(v.t.pc.k))
    ensures CpuOk(c, x, i, v') && Owed(c, x, i, v') == Owed(c, x, i, v) + 1
  {
  }

  lemma ApSignalStep(c: Config, s: State, i: nat, s': State)
    requires Inv(c, s) && i < c.n && s.cpu[i].t.pc.ApSignal? && NextAp(c, s, i) == Some(s')
    ensures Inv(c, s')
  {
    assert CpuOk(c, ViewOf(c, s), i, s.cpu[i]);
    RunFits(c, s, s.leader);
    ApSignalLocal(c, ViewOf(c, s), i, s.cpu[i], s'.cpu[i]);
    ApFrame(c, s, s', i);
  }

  lemma ApWaitLocal(c: Config, x: View, i: int, v: Cpu, v': Cpu)
    requires CpuOk(c, x, i, v) && v.member && i != x.leader && v.t.pc.ApWait?
    requires v.run > 0
    requires v' == TakeToken(c, v, v.t.pc.k)
    ensures CpuOk(c, x, i, v') && Owed(c, x, i, v') == Owed(c, x, i, v)
  {
  }

  lemma ApWaitStep(c: Config, s: State, i: nat, s': State)
    requires Inv(c, s) && i < c.n && s.cpu[i].t.pc.ApWait? && NextAp(c, s, i) == Some(s')
    ensures Inv(c, s')
  {
    assert CpuOk(c, ViewOf(c, s), i, s.cpu[i]);
    ApWaitLocal(c, ViewOf(c, s), i, s.cpu[i], s'.cpu[i]);
    ApFrame(c, s, s', i);
  }

  lemma ApCheckLocal(c: Config, x: View, i: int, v: Cpu, inside: bool, v': Cpu)
    requires CpuOk(c, x, i, v) && v.member && i != x.leader && v.t.pc.ApCheck?
    requires 0 <= x.leader && (inside <==> InsidePc(c, x.lb)) && BspPcOk(c, x.lb, x.leader)
    requires v' == Goto(v, if inside then ApCall else ApSignal(c.E() + 1))
    ensures CpuOk(c, x, i, v') && Owed(c, x, i, v') == Owed(c, x, i, v)
  {
  }

  lemma ApCheckStep(c: Config, s: State, i: nat, s': State)
    requires Inv(c, s) && i < c.n && s.cpu[i].t.pc.ApCheck? && NextAp(c, s, i) == Some(s')
    ensures Inv(c, s')
  {
    assert CpuOk(c, ViewOf(c, s), i, s.cpu[i]);
    ApCheckLocal(c, ViewOf(c, s), i, s.cpu[i], s.insideSmm, s'.cpu[i]);
    ApFrame(c, s, s', i);
  }

  lemma ApCallLocal(c: Config, x: View, i: int, v: Cpu, v': Cpu)
    requires CpuOk(c, x, i, v) && v.member && i != x.leader && v.t.pc.ApCall?
    requires v' == Goto(v, ApFree).(ran := v.ran + [v.task], job := Finished)
    ensures CpuOk(c, x, i, v') && Owed(c, x, i, v') == Owed(c, x, i, v)
  {
  }

  lemma ApCallStep(c: Config, s: State, i: nat, s': State)
    requires Inv(c, s) && i < c.n && s.cpu[i].t.pc.ApCall? && NextAp(c, s, i) == Some(s')
    ensures Inv(c, s')
  {
    assert CpuOk(c, ViewOf(c, s), i, s.cpu[i]);
    ApCallLocal(c, ViewOf(c, s), i, s.cpu[i], s'.cpu[i]);
    ApFrame(c, s, s', i);
  }

  lemma ApFreeLocal(c: Config, x: View, i: int, v: Cpu, v': Cpu)
    requires CpuOk(c, x, i, v) && v.member && i != x.leader && v.t.pc.ApFree?
    requires v' == Goto(v, ApWait(c.E())).(busy := false, job := NoJob)
    ensures CpuOk(c, x, i, v') && Owed(c, x, i, v') == Owed(c, x, i, v)
  {
  }

  lemma ApFreeStep(c: Config, s: State, i: nat, s': State)
    requires Inv(c, s) && i < c.n && s.cpu[i].t.pc.ApFree? && NextAp(c, s, i) == Some(s')
    ensures Inv(c, s')
  {
    assert CpuOk(c, ViewOf(c, s), i, s.cpu[i]);
    ApFreeLocal(c, ViewOf(c, s), i, s.cpu[i], s'.cpu[i]);
    ApFrame(c, s, s', i);
  }

  lemma ApDepartLocal(c: Config, x: View, i: int, v: Cpu, v': Cpu)
    requires CpuOk(c, x, i, v) && v.member && i != x.leader && v.t.pc.ApDepart?
    requires v' == Goto(v, ApSignal(c.K())).(present := false)
    ensures CpuOk(c, x, i, v') && Owed(c, x, i, v') == Owed(c, x, i, v)
  {
  }

  lemma ApDepartStep(c: Config, s: State, i: nat, s': State)
    requires Inv(c, s) && i < c.n && s.cpu[i].t.pc.ApDepart? && NextAp(c, s, i) == Some(s')
    ensures Inv(c, s')
  {
    assert CpuOk(c, ViewOf(c, s), i, s.cpu[i]);
    ApDepartLocal(c, ViewOf(c, s), i, s.cpu[i], s'.cpu[i]);
    ApFrame(c, s, s', i);
  }

  // ---------------------------------------------------------------- SmiRendezvous steps

  /** A CPU that takes no part in the run and does not join it. */
  ghost predicate Passing(s: State, s': State, i: nat)
    requires i < |s.cpu|
  {
    var pc := s.cpu[i].t.pc;
    pc.Outside? || pc.ReadInside? || pc.Held? || (pc.CountIn? && s'.counter == s.counter)
  }

  /** While a run is on, AllCpusInSync is set as soon as a member has finished. */
  lemma HeldIsHeld(c: Config, s: State, i: nat)
    requires Inv(c, s) && i < c.n && s.cpu[i].member && s.cpu[i].t.pc.Held?
    ensures s.inSync
  {
    assert CpuOk(c, ViewOf(c, s), i, s.cpu[i]);
  }

  lemma PassingIsOutside(c: Config, s: State, i: nat, a: Choice, s': State)
    requires Inv(c, s) && i < c.n && NextEntry(c, s, i, a) == Some(s') && Passing(s, s', i)
    ensures CpuOk(c, ViewOf(c, s), i, s.cpu[i]) && !s.cpu[i].member
  {
    assert CpuOk(c, ViewOf(c, s), i, s.cpu[i]);
    if s.cpu[i].member { HeldIsHeld(c, s, i); }
  }

  lemma PassingEffect(c: Config, s: State, i: nat, a: Choice, s': State)
    requires Sized(c, s) && i < c.n && NextEntry(c, s, i, a) == Some(s') && Passing(s, s', i)
    requires OutsiderOk(s.cpu[i])
    ensures s' == Put(s, i, s.cpu[i].(t := s'.cpu[i].t)) && OutsiderOk(s'.cpu[i])
  {
  }

  lemma PassingLocal(c: Config, x: View, i: int, v: Cpu, v': Cpu)
    requires CpuOk(c, x, i, v) && !v.member && v' == v.(t := v'.t) && OutsiderOk(v')
    ensures CpuOk(c, x, i, v') && Owed(c, x, i, v') == Owed(c, x, i, v) && i != x.leader
  {
  }

  lemma PassingStep(c: Config, s: State, i: nat, a: Choice, s': State)
    requires Inv(c, s) && i < c.n && NextEntry(c, s, i, a) == Some(s') && Passing(s, s', i)
    ensures Inv(c, s')
  {
    PassingIsOutside(c, s, i, a, s');
    PassingEffect(c, s, i, a, s');
    PassingLocal(c, ViewOf(c, s), i, s.cpu[i], s'.cpu[i]);
    ApFrame(c, s, s', i);
  }

  lemma CounterFits(c: Config, s: State)
    requires c.Valid() && Sized(c, s) && s.counter == Sum(Members(s))
    ensures s.counter <= c.n < LOCKED
  {
    SumBounds(Members(s), 0, 1);
  }

  /** A member on its way to APHandler. */
  ghost predicate Joining(s: State, s': State, i: nat)
    requires i < |s.cpu|
  {
    var pc := s.cpu[i].t.pc;
    (pc.FreeOwnBusy? || pc.Elect? || pc.TestBsp?) && s'.leader == s.leader && i != s.leader
  }

  lemma JoiningEffect(c: Config, s: State, i: nat, a: Choice, s': State)
    requires Sized(c, s) && i < c.n && NextEntry(c, s, i, a) == Some(s') && Joining(s, s', i)
    requires s.bspIndex != i
    ensures s' == Put(s, i, s'.cpu[i])
    ensures s'.cpu[i] == Goto(s.cpu[i], s'.cpu[i].t.pc).(busy := s.cpu[i].busy && !s.cpu[i].t.pc.FreeOwnBusy?)
    ensures s'.cpu[i].t.pc.Elect? || s'.cpu[i].t.pc.TestBsp? || s'.cpu[i].t.pc.ApReadMode?
  {
  }

  lemma JoiningLocal(c: Config, x: View, i: int, v: Cpu, v': Cpu)
    requires CpuOk(c, x, i, v) && v.member && i != x.leader
    requires v.t.pc.FreeOwnBusy? || v.t.pc.Elect? || v.t.pc.TestBsp?
    requires v' == Goto(v, v'.t.pc).(busy := v.busy && !v.t.pc.FreeOwnBusy?)
    requires v'.t.pc.Elect? || v'.t.pc.TestBsp? || v'.t.pc.ApReadMode?
    ensures CpuOk(c, x, i, v') && Owed(c, x, i, v') == Owed(c, x, i, v)
  {
  }

  lemma JoiningStep(c: Config, s: State, i: nat, a: Choice, s': State)
    requires Inv(c, s) && i < c.n && NextEntry(c, s, i, a) == Some(s') && Joining(s, s', i)
    ensures Inv(c, s')
  {
    assert CpuOk(c, ViewOf(c, s), i, s.cpu[i]);
    JoiningEffect(c, s, i, a, s');
    JoiningLocal(c, ViewOf(c, s), i, s.cpu[i], s'.cpu[i]);
    ApFrame(c, s, s', i);
  }

  /** A new member is counted: the counter was neither locked nor in the BSP's last two writes. */
  lemma CountedLocal(c: Config, x: View, g: Shared, i: int, v: Cpu, v': Cpu, present: bool, busy: bool)
    requires CpuOk(c, x, i, v) && v.t.pc.CountIn? && !v.member
    requires 0 <= x.leader ==> LeaderOk(c, x, g, present, busy) && !LockedPc(c, x.lb) && !x.lb.pc.BspUnsync?
    requires v' == Goto(v, FreeOwnBusy(v.t.pc.inProgress)).(member := true)
    ensures CpuOk(c, x, i, v') && (0 <= x.leader ==> Owed(c, x, i, v') == 0)
  {
  }

  lemma CountedSums(c: Config, s: State, s': State, i: nat, v': Cpu)
    requires c.Valid() && Sized(c, s) && i < c.n && !s.cpu[i].member && i != s.leader
    requires s' == s.(cpu := s.cpu[i := v'], counter := s.counter + 1) && v'.member && v'.present == s.cpu[i].present
    requires 0 <= s.leader ==> Owed(c, ViewOf(c, s), i, v') == 0
    ensures Sum(Members(s')) == Sum(Members(s)) + 1
    ensures 0 <= s.leader ==> Owing(c, s') == Owing(c, s)
    ensures forall j :: 0 <= j <= c.n ==> Presence(s', j) == Presence(s, j)
  {
    assert Members(s') == Members(s)[i := 1];
    SumUpdate(Members(s), i, 1);
  }

  lemma CountedEffect(c: Config, s: State, i: nat, a: Choice, s': State)
    requires Sized(c, s) && i < c.n && s.cpu[i].t.pc.CountIn? && NextEntry(c, s, i, a) == Some(s')
      && s'.counter != s.counter
    ensures s' == Put(s, i, Goto(s.cpu[i], FreeOwnBusy(s.cpu[i].t.pc.inProgress)).(member := true))
                  .(counter := s.counter + 1)
    ensures s.counter != LOCKED && !Closing(s)
  {
  }

  lemma CountedStep(c: Config, s: State, i: nat, a: Choice, s': State)
    requires Inv(c, s) && i < c.n && s.cpu[i].t.pc.CountIn? && NextEntry(c, s, i, a) == Some(s')
      && s'.counter != s.counter
    ensures Inv(c, s')
  {
    var x := ViewOf(c, s);
    CountedEffect(c, s, i, a, s');
    assert CpuOk(c, x, i, s.cpu[i]);
    var b := s.cpu[if s.leader < 0 then 0 else s.leader];
    CountedLocal(c, x, SharedOf(s), i, s.cpu[i], s'.cpu[i], b.present, b.busy);
    CountedSums(c, s, s', i, s'.cpu[i]);
    CountedOthers(c, s, s', i, s'.cpu[i]);
  }

  lemma CountedOthers(c: Config, s: State, s': State, i: nat, v': Cpu)
    requires c.Valid() && Sized(c, s) && CpusOk(c, s) && GlobalsOk(c, s) && i < c.n && i != s.leader
    requires s' == s.(cpu := s.cpu[i := v'], counter := s.counter + 1)
    requires CpuOk(c, ViewOf(c, s), i, v') && v'.task == s.cpu[i].task
    requires Sum(Members(s')) == Sum(Members(s)) + 1
    requires 0 <= s.leader ==> Owing(c, s') == Owing(c, s) && !Closing(s) && !LockedPc(c, s.cpu[s.leader].t)
    requires forall j :: 0 <= j <= c.n ==> Presence(s', j) == Presence(s, j)
    ensures Inv(c, s')
  {
    forall j | 0 <= j < c.n ensures CpuOk(c, ViewOf(c, s'), j, s'.cpu[j]) {
      assert CpuOk(c, ViewOf(c, s), j, s.cpu[j]);
    }
  }

  /** The election is won: nobody has got past the wait for InsideSmm. */
  lemma ElectedLocal(c: Config, x: View, x': View, i: int, v: Cpu)
    requires CpuOk(c, x, i, v) && x.leader < 0 && 0 <= x'.leader && x'.leader != i
    requires x'.effMode == x.effMode && x'.lb.pc.TestBsp?
    ensures CpuOk(c, x', i, v) && Owed(c, x', i, v) == 0
  {
  }

  lemma ElectedEffect(c: Config, s: State, i: nat, a: Choice, s': State)
    requires Inv(c, s) && i < c.n && s.cpu[i].t.pc.Elect? && NextEntry(c, s, i, a) == Some(s') && s'.leader != s.leader
    ensures s' == Put(s, i, Goto(s.cpu[i], TestBsp)).(bspIndex := i, leader := i)
    ensures s.leader < 0 && EarlyApOk(ViewOf(c, s), s.cpu[i]) && WorkOk(s.cpu[i]) && s.cpu[i].member
  {
    assert CpuOk(c, ViewOf(c, s), i, s.cpu[i]);
  }

  lemma ElectedStep(c: Config, s: State, i: nat, a: Choice, s': State)
    requires Inv(c, s) && i < c.n && s.cpu[i].t.pc.Elect? && NextEntry(c, s, i, a) == Some(s') && s'.leader != s.leader
    ensures Inv(c, s')
  {
    var x, x' := ViewOf(c, s), ViewOf(c, s');
    ElectedEffect(c, s, i, a, s');
    forall j | 0 <= j < c.n && j != i ensures CpuOk(c, x', j, s'.cpu[j]) && Owing(c, s')[j] == 0 {
      assert CpuOk(c, x, j, s.cpu[j]);
      ElectedLocal(c, x, x', j, s.cpu[j]);
    }
    assert Members(s') == Members(s);
    SumZero(Owing(c, s'));
  }

  // ---------------------------------------------------------------- BSP steps

  /** What is left to show of a BSP step that leaves every AP as it was. */
  lemma BspFrame(c: Config, s: State, s': State, b': Cpu)
    requires Inv(c, s) && 0 <= s.leader == s'.leader && s'.cpu == s.cpu[s.leader := b']
    requires b'.member && b'.job == s.cpu[s.leader].job && b'.accepted == s.cpu[s.leader].accepted
      && b'.ran == s.cpu[s.leader].ran
    requires forall j :: 0 <= j < c.n && j != s.leader ==>
      CpuOk(c, ViewOf(c, s'), j, s.cpu[j]) && Owed(c, ViewOf(c, s'), j, s.cpu[j]) == Owed(c, ViewOf(c, s), j, s.cpu[j])
    requires LeaderOk(c, ViewOf(c, s'), SharedOf(s'), b'.present, b'.busy)
    requires b'.run + Partial(b'.t) == s.cpu[s.leader].run + Partial(s.cpu[s.leader].t)
    requires ScanOk(b'.t, s') && RequestOk(b'.t, s')
    ensures Inv(c, s')
  {
    assert CpuOk(c, ViewOf(c, s), s.leader, s.cpu[s.leader]);
    assert Owing(c, s') == Owing(c, s);
  }

  lemma LeaderIsMember(c: Config, s: State)
    requires Inv(c, s) && 0 <= s.leader
    ensures s.cpu[s.leader].member && s.cpu[s.leader].job == NoJob && s.cpu[s.leader].accepted == s.cpu[s.leader].ran
  {
    assert CpuOk(c, ViewOf(c, s), s.leader, s.cpu[s.leader]);
  }

  /** A move of the BSP that means nothing to AP i. */
  ghost predicate SameFor(c: Config, x: View, x': View, i: int) {
    && x'.leader == x.leader && 0 <= x.leader && i != x.leader
    && Done(c, x'.lb) == Done(c, x.lb) && Given(c, x'.lb, i) == Given(c, x.lb, i)
    && (Entered(x.lb.pc) ==> Entered(x'.lb.pc)) && RunMode(x') == RunMode(x)
    && (Done(c, x.lb) == 0 ==> Early(c, x'.lb) == Early(c, x.lb))
    && (!InHandlers(x.lb.pc) || x.lb.pc.BspTasks?) && !Touching(x'.lb, i)
  }

  lemma SameForAp(c: Config, x: View, x': View, i: int, v: Cpu)
    requires CpuOk(c, x, i, v) && SameFor(c, x, x', i)
    ensures CpuOk(c, x', i, v) && Owed(c, x', i, v) == Owed(c, x, i, v)
  {
  }

  lemma SameForAll(c: Config, s: State, s': State)
    requires c.Valid() && Sized(c, s) && CpusOk(c, s) && Sized(c, s')
    requires forall j :: 0 <= j < c.n && j != s.leader ==> SameFor(c, ViewOf(c, s), ViewOf(c, s'), j)
    ensures forall j :: 0 <= j < c.n && j != s.leader ==>
      CpuOk(c, ViewOf(c, s'), j, s.cpu[j]) && Owed(c, ViewOf(c, s'), j, s.cpu[j]) == Owed(c, ViewOf(c, s), j, s.cpu[j])
  {
    forall j | 0 <= j < c.n && j != s.leader
      ensures CpuOk(c, ViewOf(c, s'), j, s.cpu[j])
        && Owed(c, ViewOf(c, s'), j, s.cpu[j]) == Owed(c, ViewOf(c, s), j, s.cpu[j])
    {
      assert CpuOk(c, ViewOf(c, s), j, s.cpu[j]);
      SameForAp(c, ViewOf(c, s), ViewOf(c, s'), j, s.cpu[j]);
    }
  }

  lemma BspEnterStep(c: Config, s: State, a: Choice, s': State)
    requires Inv(c, s) && 0 <= s.leader && s.cpu[s.leader].t.pc.BspEnter? && NextBsp(c, s, s.leader, a) == Some(s')
    ensures Inv(c, s')
  {
    LeaderIsMember(c, s);
    assert Members(s') == Members(s);
    SameForAll(c, s, s');
    BspFrame(c, s, s', s'.cpu[s.leader]);
  }

  lemma BspPresentStep(c: Config, s: State, a: Choice, s': State)
    requires Inv(c, s) && 0 <= s.leader && s.cpu[s.leader].t.pc.BspPresent? && NextBsp(c, s, s.leader, a) == Some(s')
    ensures Inv(c, s')
  {
    LeaderIsMember(c, s);
    assert Members(s') == Members(s);
    SameForAll(c, s, s');
    BspFrame(c, s, s', s'.cpu[s.leader]);
  }

  lemma BspClearStatusStep(c: Config, s: State, a: Choice, s': State)
    requires Inv(c, s) && 0 <= s.leader && s.cpu[s.leader].t.pc.BspClearStatus?
      && NextBsp(c, s, s.leader, a) == Some(s')
    ensures Inv(c, s')
  {
    LeaderIsMember(c, s);
    assert Members(s') == Members(s);
    SameForAll(c, s, s');
    BspFrame(c, s, s', s'.cpu[s.leader]);
  }

  lemma BspSyncStep(c: Config, s: State, a: Choice, s': State)
    requires Inv(c, s) && 0 <= s.leader && s.cpu[s.leader].t.pc.BspSync? && NextBsp(c, s, s.leader, a) == Some(s')
    ensures Inv(c, s')
  {
    LeaderIsMember(c, s);
    assert Members(s') == Members(s);
    SameForAll(c, s, s');
    BspFrame(c, s, s', s'.cpu[s.leader]);
  }

  lemma BspSetModeStep(c: Config, s: State, a: Choice, s': State)
    requires Inv(c, s) && 0 <= s.leader && s.cpu[s.leader].t.pc.BspSetMode? && NextBsp(c, s, s.leader, a) == Some(s')
    ensures Inv(c, s')
  {
    LeaderIsMember(c, s);
    assert Members(s') == Members(s);
    SameForAll(c, s, s');
    BspFrame(c, s, s', s'.cpu[s.leader]);
  }

  lemma BspAbsentStep(c: Config, s: State, a: Choice, s': State)
    requires Inv(c, s) && 0 <= s.leader && s.cpu[s.leader].t.pc.BspAbsent? && NextBsp(c, s, s.leader, a) == Some(s')
    ensures Inv(c, s')
  {
    LeaderIsMember(c, s);
    assert Members(s') == Members(s);
    SameForAll(c, s, s');
    BspFrame(c, s, s', s'.cpu[s.leader]);
  }

  lemma BspUnelectStep(c: Config, s: State, a: Choice, s': State)
    requires Inv(c, s) && 0 <= s.leader && s.cpu[s.leader].t.pc.BspUnelect? && NextBsp(c, s, s.leader, a) == Some(s')
    ensures Inv(c, s')
  {
    LeaderIsMember(c, s);
    assert Members(s') == Members(s);
    SameForAll(c, s, s');
    BspFrame(c, s, s', s'.cpu[s.leader]);
  }

  lemma BspResetStep(c: Config, s: State, a: Choice, s': State)
    requires Inv(c, s) && 0 <= s.leader && s.cpu[s.leader].t.pc.BspReset? && NextBsp(c, s, s.leader, a) == Some(s')
    ensures Inv(c, s')
  {
    LeaderIsMember(c, s);
    assert Members(s') == Members(s);
    SameForAll(c, s, s');
    BspFrame(c, s, s', s'.cpu[s.leader]);
  }

  lemma BspOwnBusyStep(c: Config, s: State, a: Choice, s': State)
    requires Inv(c, s) && 0 <= s.leader && s.cpu[s.leader].t.pc.BspOwnBusy? && NextBsp(c, s, s.leader, a) == Some(s')
    ensures Inv(c, s')
  {
    LeaderIsMember(c, s);
    assert Members(s') == Members(s);
    SameForAll(c, s, s');
    BspFrame(c, s, s', s'.cpu[s.leader]);
  }

  lemma BspLeaveStep(c: Config, s: State, a: Choice, s': State)
    requires Inv(c, s) && 0 <= s.leader && s.cpu[s.leader].t.pc.BspLeave? && NextBsp(c, s, s.leader, a) == Some(s')
    ensures Inv(c, s')
  {
    LeaderIsMember(c, s);
    assert Members(s') == Members(s);
    SameForAll(c, s, s');
    BspFrame(c, s, s', s'.cpu[s.leader]);
  }

  lemma MembersPositive(c: Config, s: State)
    requires Inv(c, s) && 0 <= s.leader
    ensures 1 <= Sum(Members(s)) <= c.n
  {
    LeaderIsMember(c, s);
    SumBounds(Members(s), 0, 1);
    var others := Members(s)[s.leader := 0];
    SumBounds(others, 0, 1);
    SumUpdate(Members(s), s.leader, 0);
  }

  lemma BspLockStep(c: Config, s: State, a: Choice, s': State)
    requires Inv(c, s) && 0 <= s.leader && s.cpu[s.leader].t.pc.BspLock? && NextBsp(c, s, s.leader, a) == Some(s')
    ensures Inv(c, s')
  {
    LeaderIsMember(c, s);
    assert Members(s') == Members(s);
    MembersPositive(c, s);
    if !Early(c, s.cpu[s.leader].t) { SumZero(Presence(s', c.n)); }
    SameForAll(c, s, s');
    BspFrame(c, s, s', s'.cpu[s.leader]);
  }

  lemma BspReadModeStep(c: Config, s: State, a: Choice, s': State)
    requires Inv(c, s) && 0 <= s.leader && s.cpu[s.leader].t.pc.BspReadMode? && NextBsp(c, s, s.leader, a) == Some(s')
    ensures Inv(c, s')
  {
    LeaderIsMember(c, s);
    assert Members(s') == Members(s);
    forall j | 0 <= j < c.n && j != s.leader
      ensures CpuOk(c, ViewOf(c, s'), j, s.cpu[j])
        && Owed(c, ViewOf(c, s'), j, s.cpu[j]) == Owed(c, ViewOf(c, s), j, s.cpu[j])
    {
      assert CpuOk(c, ViewOf(c, s), j, s.cpu[j]);
    }
    BspFrame(c, s, s', s'.cpu[s.leader]);
  }

  lemma TestBspLeaderStep(c: Config, s: State, a: Choice, s': State)
    requires Inv(c, s) && 0 <= s.leader && s.cpu[s.leader].t.pc.TestBsp? && NextEntry(c, s, s.leader, a) == Some(s')
    ensures Inv(c, s')
  {
    LeaderIsMember(c, s);
    assert Members(s') == Members(s);
    SameForAll(c, s, s');
    BspFrame(c, s, s', s'.cpu[s.leader]);
  }

  lemma PresenceNext(s: State, j: nat)
    requires 0 < j <= |s.cpu|
    ensures Sum(Presence(s, j - 1)) == Sum(Presence(s, j)) + if s.cpu[j - 1].present then 1 else 0
  {
    assert Presence(s, j - 1)[1..] == Presence(s, j);
  }

  lemma PresenceSame(s: State, s': State, j: nat)
    requires j <= |s.cpu| == |s'.cpu|
    requires forall i :: 0 <= i < |s.cpu| ==> s'.cpu[i].present == s.cpu[i].present
    ensures Presence(s', j) == Presence(s, j)
  {
  }

  lemma BspScanNextStep(c: Config, s: State, a: Choice, s': State)
    requires Inv(c, s) && 0 <= s.leader && s.cpu[s.leader].t.pc.BspScan? && NextBsp(c, s, s.leader, a) == Some(s')
    requires 0 < s.cpu[s.leader].t.pc.j
    ensures Inv(c, s')
  {
    LeaderIsMember(c, s);
    var j := s.cpu[s.leader].t.pc.j;
    assert j <= c.n;
    var b' := Goto(s.cpu[s.leader], BspScan(j - 1, s.cpu[s.leader].t.pc.found + if s.cpu[j - 1].present then 1 else 0));
    assert s' == Put(s, s.leader, b');
    ScanNextFrame(c, s, s', j, b');
  }

  lemma ScanNextCount(s: State, s': State, j: nat)
    requires 0 < j <= |s.cpu| == |s'.cpu|
    requires forall i :: 0 <= i < |s.cpu| ==>
      s'.cpu[i].present == s.cpu[i].present && s'.cpu[i].member == s.cpu[i].member
    ensures Sum(Presence(s', j - 1)) == Sum(Presence(s, j)) + if s.cpu[j - 1].present then 1 else 0
    ensures Members(s') == Members(s)
  {
    PresenceNext(s, j);
    PresenceSame(s, s', j - 1);
    assert Members(s') == Members(s);
  }

  lemma ScanNextFrame(c: Config, s: State, s': State, j: nat, b': Cpu)
    requires Inv(c, s) && 0 <= s.leader && s.cpu[s.leader].t.pc.BspScan? && 0 < j <= c.n && s.cpu[s.leader].t.pc.j == j
    requires s.cpu[s.leader].member
    requires b' == Goto(s.cpu[s.leader], BspScan(j - 1, s.cpu[s.leader].t.pc.found
      + if s.cpu[j - 1].present then 1 else 0))
    requires s' == Put(s, s.leader, b')
    ensures Inv(c, s')
  {
    ScanNextCount(s, s', j);
    SameForAll(c, s, s');
    BspFrame(c, s, s', b');
  }

  lemma BspScanAgainStep(c: Config, s: State, a: Choice, s': State)
    requires Inv(c, s) && 0 <= s.leader && s.cpu[s.leader].t.pc.BspScan? && NextBsp(c, s, s.leader, a) == Some(s')
    requires s.cpu[s.leader].t.pc.j == 0 && !s'.cpu[s.leader].t.pc.BspLeave?
    ensures Inv(c, s')
  {
    LeaderIsMember(c, s);
    assert Members(s') == Members(s);
    SameForAll(c, s, s');
    SumZero(Presence(s', c.n));
    BspFrame(c, s, s', s'.cpu[s.leader]);
  }

  /** The presence scan succeeds only when every member has arrived. */
  lemma ScanFindsAll(c: Config, s: State)
    requires Inv(c, s) && 0 <= s.leader
    requires s.cpu[s.leader].t.pc.BspScan? && s.cpu[s.leader].t.pc.j == 0
      && s.cpu[s.leader].t.pc.found > s.cpu[s.leader].t.apCount
    ensures forall i :: 0 <= i < c.n ==> s.cpu[i].present == s.cpu[i].member
  {
    var xs, ms := Presence(s, 0), Members(s);
    forall i | 0 <= i < c.n ensures xs[i] <= ms[i] {
      assert CpuOk(c, ViewOf(c, s), i, s.cpu[i]);
    }
    SumMonotone(xs, ms);
    forall i | 0 <= i < c.n ensures s.cpu[i].present == s.cpu[i].member {
      assert xs[i] == ms[i];
    }
  }

  lemma ScannedLocal(c: Config, x: View, x': View, i: int, v: Cpu)
    requires CpuOk(c, x, i, v) && v.present == v.member && 0 <= x.leader && x.lb.pc.BspScan? && i != x.leader
    requires !Early(c, x.lb) && x' == x.(lb := x.lb.(pc := BspLeave))
    ensures CpuOk(c, x', i, v) && Owed(c, x', i, v) == Owed(c, x, i, v)
  {
  }

  lemma BspScanDoneStep(c: Config, s: State, a: Choice, s': State)
    requires Inv(c, s) && 0 <= s.leader && s.cpu[s.leader].t.pc.BspScan? && NextBsp(c, s, s.leader, a) == Some(s')
    requires s'.cpu[s.leader].t.pc.BspLeave?
    ensures Inv(c, s')
  {
    LeaderIsMember(c, s);
    assert Members(s') == Members(s);
    ScanFindsAll(c, s);
    forall j | 0 <= j < c.n && j != s.leader
      ensures CpuOk(c, ViewOf(c, s'), j, s.cpu[j])
        && Owed(c, ViewOf(c, s'), j, s.cpu[j]) == Owed(c, ViewOf(c, s), j, s.cpu[j])
    {
      assert CpuOk(c, ViewOf(c, s), j, s.cpu[j]);
      ScannedLocal(c, ViewOf(c, s), ViewOf(c, s'), j, s.cpu[j]);
    }
    BspFrame(c, s, s', s'.cpu[s.leader]);
  }

  lemma BspWaitTokenStep(c: Config, s: State, a: Choice, s': State)
    requires Inv(c, s) && 0 <= s.leader && s.cpu[s.leader].t.pc.BspWait? && NextBsp(c, s, s.leader, a) == Some(s')
    requires s.cpu[s.leader].t.pc.left > 0
    ensures Inv(c, s')
  {
    LeaderIsMember(c, s);
    assert Members(s') == Members(s);
    SameForAll(c, s, s');
    BspFrame(c, s, s', s'.cpu[s.leader]);
  }

  /** WaitForAllAPs returns only when every AP of the run has signalled this round. */
  lemma WaitFindsAll(c: Config, s: State)
    requires Inv(c, s) && 0 <= s.leader && s.cpu[s.leader].t.pc.BspWait? && s.cpu[s.leader].t.pc.left == 0
    ensures s.cpu[s.leader].run == 0
    ensures forall i :: 0 <= i < c.n && i != s.leader && s.cpu[i].member ==>
      Sig(c, s.cpu[i].t) == s.cpu[s.leader].t.pc.k
  {
    LeaderIsMember(c, s);
    var xs, ms := Owing(c, s), Members(s)[s.leader := 0];
    SumUpdate(Members(s), s.leader, 0);
    forall i | 0 <= i < c.n ensures xs[i] <= ms[i] {
      OwedIsBit(c, s, i);
    }
    SumMonotone(xs, ms);
    forall i | 0 <= i < c.n && i != s.leader && s.cpu[i].member ensures Sig(c, s.cpu[i].t) == s.cpu[s.leader].t.pc.k {
      assert xs[i] == ms[i];
    }
  }

  lemma WaitedLocal(c: Config, x: View, x': View, i: int, v: Cpu)
    requires CpuOk(c, x, i, v) && 0 <= x.leader && x.lb.pc.BspWait? && i != x.leader && BspPcOk(c, x.lb, x.leader)
    requires v.member ==> Sig(c, v.t) == x.lb.pc.k
    requires x' == x.(lb := x.lb.(pc := AfterWait(c, x.lb.pc.k))) && i < c.n
    ensures CpuOk(c, x', i, v) && Owed(c, x', i, v) == 0
  {
  }

  lemma WaitedCpus(c: Config, s: State, s': State)
    requires Inv(c, s) && 0 <= s.leader && s.cpu[s.leader].t.pc.BspWait? && s.cpu[s.leader].t.pc.left == 0
    requires s' == Put(s, s.leader, Goto(s.cpu[s.leader], AfterWait(c, s.cpu[s.leader].t.pc.k)))
    ensures CpusOk(c, s') && Sum(Owing(c, s')) == 0 && s.cpu[s.leader].run == 0
  {
    LeaderIsMember(c, s);
    WaitFindsAll(c, s);
    forall j | 0 <= j < c.n ensures CpuOk(c, ViewOf(c, s'), j, s'.cpu[j]) && Owing(c, s')[j] == 0 {
      assert CpuOk(c, ViewOf(c, s), j, s.cpu[j]);
      if j != s.leader { WaitedLocal(c, ViewOf(c, s), ViewOf(c, s'), j, s.cpu[j]); }
    }
    SumZero(Owing(c, s'));
  }

  lemma WaitedLeader(c: Config, x: View, x': View, g: Shared, present: bool, busy: bool)
    requires LeaderOk(c, x, g, present, busy) && x.lb.pc.BspWait? && x.lb.pc.left == 0 && c.Valid()
    requires x' == x.(lb := x.lb.(pc := AfterWait(c, x.lb.pc.k)))
    ensures LeaderOk(c, x', g, present, busy) && Partial(x'.lb) == 0 && !x'.lb.pc.BspScan? && !x'.lb.pc.BspStart?
  {
  }

  lemma BspWaitDoneStep(c: Config, s: State, a: Choice, s': State)
    requires Inv(c, s) && 0 <= s.leader && s.cpu[s.leader].t.pc.BspWait? && NextBsp(c, s, s.leader, a) == Some(s')
    requires s.cpu[s.leader].t.pc.left == 0
    ensures Inv(c, s')
  {
    var b := s.cpu[s.leader];
    assert Members(s') == Members(s);
    WaitedCpus(c, s, s');
    WaitedLeader(c, ViewOf(c, s), ViewOf(c, s'), SharedOf(s), b.present, b.busy);
  }

  /** The BSP examines the Present flag of AP j - 1 in a ReleaseAllAPs. */
  function Checked(l: Thread, b: int, present: bool): Thread
    requires l.pc.BspCheck? && 0 < l.pc.j
  {
    l.(pc := if l.pc.j - 1 != b && present then BspSignal(l.pc.k, l.pc.j) else BspCheck(l.pc.k, l.pc.j - 1))
  }

  lemma CheckedAll(c: Config, s: State, x': View, present: bool)
    requires Inv(c, s) && 0 <= s.leader && s.cpu[s.leader].t.pc.BspCheck? && 0 < s.cpu[s.leader].t.pc.j <= c.n
    requires s.cpu[s.cpu[s.leader].t.pc.j - 1].present == present
    requires x' == ViewOf(c, s).(lb := Checked(s.cpu[s.leader].t, s.leader, present))
    ensures forall j :: 0 <= j < c.n && j != s.leader ==>
      CpuOk(c, x', j, s.cpu[j]) && Owed(c, x', j, s.cpu[j]) == Owed(c, ViewOf(c, s), j, s.cpu[j])
  {
    forall j | 0 <= j < c.n && j != s.leader
      ensures CpuOk(c, x', j, s.cpu[j]) && Owed(c, x', j, s.cpu[j]) == Owed(c, ViewOf(c, s), j, s.cpu[j])
    {
      assert CpuOk(c, ViewOf(c, s), j, s.cpu[j]);
      CheckedLocal(c, ViewOf(c, s), x', j, s.cpu[j], present);
    }
  }

  /** Within one ReleaseAllAPs nothing changes for the shared variables. */
  lemma RoundLeader(c: Config, x: View, x': View, g: Shared, present: bool, busy: bool)
    requires LeaderOk(c, x, g, present, busy) && (x.lb.pc.BspCheck? || x.lb.pc.BspSignal?)
    requires (x'.lb.pc.BspCheck? || x'.lb.pc.BspSignal?) && x'.lb.pc.k == x.lb.pc.k && BspPcOk(c, x'.lb, x.leader)
    requires x' == x.(lb := x.lb.(pc := x'.lb.pc))
    ensures LeaderOk(c, x', g, present, busy) && Partial(x'.lb) == Partial(x.lb)
  {
  }

  lemma CheckedFrame(c: Config, s: State, s': State, present: bool)
    requires Inv(c, s) && 0 <= s.leader && s.cpu[s.leader].t.pc.BspCheck? && 0 < s.cpu[s.leader].t.pc.j <= c.n
    requires s.cpu[s.leader].member && s.cpu[s.cpu[s.leader].t.pc.j - 1].present == present
    requires s' == Put(s, s.leader, s.cpu[s.leader].(t := Checked(s.cpu[s.leader].t, s.leader, present)))
    ensures Inv(c, s')
  {
    assert Members(s') == Members(s);
    CheckedAll(c, s, ViewOf(c, s'), present);
    RoundLeader(c, ViewOf(c, s), ViewOf(c, s'), SharedOf(s), s.cpu[s.leader].present, s.cpu[s.leader].busy);
    BspFrame(c, s, s', s'.cpu[s.leader]);
  }

  lemma BspCheckStep(c: Config, s: State, a: Choice, s': State)
    requires Inv(c, s) && 0 <= s.leader && s.cpu[s.leader].t.pc.BspCheck? && NextBsp(c, s, s.leader, a) == Some(s')
    requires 0 < s.cpu[s.leader].t.pc.j
    ensures Inv(c, s')
  {
    LeaderIsMember(c, s);
    var pc := s.cpu[s.leader].t.pc;
    assert pc.j <= c.n;
    CheckedFrame(c, s, s', s.cpu[pc.j - 1].present);
  }

  lemma ReleasedFrame(c: Config, s: State, s': State)
    requires Inv(c, s) && 0 <= s.leader && s.cpu[s.leader].t.pc.BspCheck? && 0 == s.cpu[s.leader].t.pc.j
    requires s.cpu[s.leader].member
    requires s' == Put(s, s.leader, Goto(s.cpu[s.leader], AfterRelease(c, s.cpu[s.leader].t, s.cpu[s.leader].t.pc.k)))
    ensures Inv(c, s')
  {
    assert Members(s') == Members(s);
    SameForAll(c, s, s');
    BspFrame(c, s, s', s'.cpu[s.leader]);
  }

  lemma BspReleasedStep(c: Config, s: State, a: Choice, s': State)
    requires Inv(c, s) && 0 <= s.leader && s.cpu[s.leader].t.pc.BspCheck? && NextBsp(c, s, s.leader, a) == Some(s')
    requires 0 == s.cpu[s.leader].t.pc.j
    ensures Inv(c, s')
  {
    LeaderIsMember(c, s);
    ReleasedFrame(c, s, s');
  }

  lemma CheckedLocal(c: Config, x: View, x': View, i: int, v: Cpu, present: bool)
    requires CpuOk(c, x, i, v) && 0 <= x.leader && x.lb.pc.BspCheck? && i != x.leader && BspPcOk(c, x.lb, x.leader)
      && 0 < x.lb.pc.j
    requires x' == x.(lb := Checked(x.lb, x.leader, present))
    requires x.lb.pc.j - 1 == i ==> v.present == present
    ensures CpuOk(c, x', i, v) && Owed(c, x', i, v) == Owed(c, x, i, v)
  {
  }

  /** A BSP step that touches itself and AP t, and leaves both threads in the same round. */
  ghost predicate OnlyTarget(c: Config, s: State, s': State, t: nat)
    requires c.Valid() && Sized(c, s) && 0 <= s.leader
  {
    && Sized(c, s') && t < c.n && t != s.leader == s'.leader
    && (forall j :: 0 <= j < c.n && j != s.leader && j != t ==> s'.cpu[j] == s.cpu[j])
    && s'.cpu[t].member == s.cpu[t].member && s'.cpu[t].t == s.cpu[t].t
    && s'.cpu[s.leader].member && s.cpu[s.leader].member
    && s'.cpu[s.leader].job == NoJob && s'.cpu[s.leader].accepted == s'.cpu[s.leader].ran
    && Done(c, s'.cpu[s.leader].t) == Done(c, s.cpu[s.leader].t) && s'.cpu[s.leader].t.mode == s.cpu[s.leader].t.mode
  }

  lemma TargetSums(c: Config, s: State, s': State, t: nat)
    requires c.Valid() && Sized(c, s) && 0 <= s.leader && OnlyTarget(c, s, s', t)
    ensures Owing(c, s') == Owing(c, s) && Members(s') == Members(s)
  {
  }

  /** What is left to show of such a step once the APs are known to be fine. */
  lemma TargetFrame(c: Config, s: State, s': State, t: nat)
    requires c.Valid() && Sized(c, s) && GlobalsOk(c, s) && 0 <= s.leader && OnlyTarget(c, s, s', t)
    requires forall j :: 0 <= j < c.n && j != s.leader ==> CpuOk(c, ViewOf(c, s'), j, s'.cpu[j])
    requires Sum(Members(s')) == Sum(Members(s)) ==>
      LeaderOk(c, ViewOf(c, s'), SharedOf(s'), s'.cpu[s.leader].present, s'.cpu[s.leader].busy)
    requires s'.cpu[s.leader].run + Partial(s'.cpu[s.leader].t) == s.cpu[s.leader].run + Partial(s.cpu[s.leader].t)
    requires ScanOk(s'.cpu[s.leader].t, s') && RequestOk(s'.cpu[s.leader].t, s')
    ensures Inv(c, s')
  {
    TargetSums(c, s, s', t);
  }

  lemma SignalledLocal(c: Config, x: View, x': View, i: int, v: Cpu)
    requires CpuOk(c, x, i, v) && 0 <= x.leader && x.lb.pc.BspSignal? && i != x.leader && BspPcOk(c, x.lb, x.leader)
    requires x' == x.(lb := x.lb.(pc := BspCheck(x.lb.pc.k, x.lb.pc.j - 1)))
    requires i == x.lb.pc.j - 1 ==> v.member
    ensures CpuOk(c, x', i, if i == x.lb.pc.j - 1 then v.(run := v.run + 1) else v)
  {
  }

  lemma SignalledAll(c: Config, s: State, s': State, t: nat)
    requires Inv(c, s) && 0 <= s.leader && s.cpu[s.leader].t.pc.BspSignal? && s.cpu[s.leader].t.pc.j - 1 == t
    requires t < c.n && t != s.leader && s.cpu[t].member
    requires s' == Put(Put(s, s.leader, Goto(s.cpu[s.leader], BspCheck(s.cpu[s.leader].t.pc.k, t))), t,
      s.cpu[t].(run := s.cpu[t].run + 1))
    ensures forall j :: 0 <= j < c.n && j != s.leader ==> CpuOk(c, ViewOf(c, s'), j, s'.cpu[j])
  {
    forall j | 0 <= j < c.n && j != s.leader ensures CpuOk(c, ViewOf(c, s'), j, s'.cpu[j]) {
      assert CpuOk(c, ViewOf(c, s), j, s.cpu[j]);
      SignalledLocal(c, ViewOf(c, s), ViewOf(c, s'), j, s.cpu[j]);
    }
  }

  lemma SignalledFrame(c: Config, s: State, s': State, t: nat)
    requires Inv(c, s) && 0 <= s.leader && s.cpu[s.leader].t.pc.BspSignal? && s.cpu[s.leader].t.pc.j - 1 == t
    requires t < c.n && t != s.leader && s.cpu[t].member
    requires s' == Put(Put(s, s.leader, Goto(s.cpu[s.leader], BspCheck(s.cpu[s.leader].t.pc.k, t))), t,
      s.cpu[t].(run := s.cpu[t].run + 1))
    ensures Inv(c, s')
  {
    LeaderIsMember(c, s);
    SignalledAll(c, s, s', t);
    assert OnlyTarget(c, s, s', t);
    TargetSums(c, s, s', t);
    RoundLeader(c, ViewOf(c, s), ViewOf(c, s'), SharedOf(s), s.cpu[s.leader].present, s.cpu[s.leader].busy);
    TargetFrame(c, s, s', t);
  }

  lemma TouchedIsAp(c: Config, s: State, t: nat)
    requires Inv(c, s) && 0 <= s.leader && t < c.n && t != s.leader && Touching(s.cpu[s.leader].t, t)
    ensures s.cpu[t].member && s.cpu[t].present && CpuOk(c, ViewOf(c, s), t, s.cpu[t])
  {
    assert CpuOk(c, ViewOf(c, s), t, s.cpu[t]);
  }

  lemma BspSignalStep(c: Config, s: State, a: Choice, s': State)
    requires Inv(c, s) && 0 <= s.leader && s.cpu[s.leader].t.pc.BspSignal? && NextBsp(c, s, s.leader, a) == Some(s')
    ensures Inv(c, s')
  {
    LeaderIsMember(c, s);
    var t := s.cpu[s.leader].t.pc.j - 1;
    TouchedIsAp(c, s, t);
    RunFits(c, s, t);
    SignalledFrame(c, s, s', t);
  }

  // ---------------------------------------------------------------- the SMI handlers and the drain loop

  ghost predicate HandlerMove(c: Config, x: View, x': View) {
    && x' == x.(lb := x.lb.(pc := x'.lb.pc)) && 0 <= x.leader
    && InHandlers(x.lb.pc) && InHandlers(x'.lb.pc) && BspPcOk(c, x'.lb, x.leader)
  }

  /** What a move within the handlers has to respect at AP i. */
  ghost predicate MoveFits(x: View, x': View, i: int, v: Cpu) {
    && (Touching(x'.lb, i) ==> v.present)
    && (v.member ==> JobOk(x'.lb, i, v.job) && (BspHolds(x'.lb, i) <==> BspHolds(x.lb, i)))
  }

  lemma HandlerLocal(c: Config, x: View, x': View, i: int, v: Cpu)
    requires CpuOk(c, x, i, v) && HandlerMove(c, x, x') && i != x.leader && MoveFits(x, x', i, v)
    ensures CpuOk(c, x', i, v)
  {
  }

  lemma HandlerLeader(c: Config, x: View, x': View, g: Shared, present: bool, busy: bool)
    requires LeaderOk(c, x, g, present, busy) && HandlerMove(c, x, x')
    ensures LeaderOk(c, x', g, present, busy)
    ensures Partial(x'.lb) == Partial(x.lb) && Done(c, x'.lb) == Done(c, x.lb)
  {
  }

  /** A move of the BSP within the handlers to pc', with AP t left as v'. */
  lemma HandlerFrame(c: Config, s: State, s': State, pc': Pc, t: nat, v': Cpu)
    requires Inv(c, s) && 0 <= s.leader && t < c.n && t != s.leader && s.cpu[t].member
    requires s' == Put(Put(s, s.leader, Goto(s.cpu[s.leader], pc')), t, v') && v'.member && v'.t == s.cpu[t].t
    requires InHandlers(s.cpu[s.leader].t.pc) && InHandlers(pc') && BspPcOk(c, s.cpu[s.leader].t.(pc := pc'), s.leader)
    requires forall j :: 0 <= j < c.n && j != s.leader && j != t ==>
      (CpuOk(c, ViewOf(c, s), j, s.cpu[j]) ==> MoveFits(ViewOf(c, s), ViewOf(c, s'), j, s.cpu[j]))
    requires CpuOk(c, ViewOf(c, s'), t, v') && RequestOk(s'.cpu[s.leader].t, s')
    ensures Inv(c, s')
  {
    LeaderIsMember(c, s);
    var b := s.cpu[s.leader];
    HandlerLeader(c, ViewOf(c, s), ViewOf(c, s'), SharedOf(s), b.present, b.busy);
    assert OnlyTarget(c, s, s', t);
    TargetSums(c, s, s', t);
    HandlerOthers(c, s, s', t);
    TargetFrame(c, s, s', t);
  }

  /** A move of the BSP through a SmmStartupThisAp call, back to where the call came from at the end. */
  ghost predicate StartMove(x: View, x': View) {
    && x' == x.(lb := x.lb.(pc := x'.lb.pc)) && x.lb.pc.BspStart?
    && ((x'.lb.pc.BspStart? && x'.lb.pc.req == x.lb.pc.req)
        || x'.lb.pc == if x.lb.pc.req.late then BspTasks else BspHandler)
  }

  lemma StartElsewhere(c: Config, x: View, x': View, i: int, v: Cpu)
    requires CpuOk(c, x, i, v) && 0 <= x.leader && i != x.leader && StartMove(x, x') && i != x.lb.pc.req.target
    ensures MoveFits(x, x', i, v)
  {
  }

  lemma StartFrame(c: Config, s: State, s': State, pc': Pc, t: nat, v': Cpu)
    requires Inv(c, s) && 0 <= s.leader && s.cpu[s.leader].t.pc.BspStart? && s.cpu[s.leader].t.pc.req.target == t
    requires t < c.n && t != s.leader && s.cpu[t].member
    requires s' == Put(Put(s, s.leader, Goto(s.cpu[s.leader], pc')), t, v') && v'.member && v'.t == s.cpu[t].t
    requires InHandlers(pc') && BspPcOk(c, s.cpu[s.leader].t.(pc := pc'), s.leader)
      && StartMove(ViewOf(c, s), ViewOf(c, s'))
    requires CpuOk(c, ViewOf(c, s'), t, v') && RequestOk(s'.cpu[s.leader].t, s')
    ensures Inv(c, s')
  {
    forall j | 0 <= j < c.n && j != s.leader && j != t && CpuOk(c, ViewOf(c, s), j, s.cpu[j])
      ensures MoveFits(ViewOf(c, s), ViewOf(c, s'), j, s.cpu[j])
    {
      StartElsewhere(c, ViewOf(c, s), ViewOf(c, s'), j, s.cpu[j]);
    }
    HandlerFrame(c, s, s', pc', t, v');
  }

  lemma HandlerOthers(c: Config, s: State, s': State, t: nat)
    requires c.Valid() && Sized(c, s) && CpusOk(c, s) && 0 <= s.leader && OnlyTarget(c, s, s', t)
    requires HandlerMove(c, ViewOf(c, s), ViewOf(c, s'))
    requires forall j :: 0 <= j < c.n && j != s.leader && j != t ==>
      (CpuOk(c, ViewOf(c, s), j, s.cpu[j]) ==> MoveFits(ViewOf(c, s), ViewOf(c, s'), j, s.cpu[j]))
    ensures forall j :: 0 <= j < c.n && j != s.leader && j != t ==> CpuOk(c, ViewOf(c, s'), j, s'.cpu[j])
  {
    forall j | 0 <= j < c.n && j != s.leader && j != t ensures CpuOk(c, ViewOf(c, s'), j, s'.cpu[j]) {
      assert CpuOk(c, ViewOf(c, s), j, s.cpu[j]);
      HandlerLocal(c, ViewOf(c, s), ViewOf(c, s'), j, s.cpu[j]);
    }
  }

  /** A move of the BSP within the handlers that changes no AP. */
  lemma HandlerStep(c: Config, s: State, s': State)
    requires Inv(c, s) && 0 <= s.leader && |s'.cpu| == c.n
    requires s' == Put(s, s.leader, Goto(s.cpu[s.leader], s'.cpu[s.leader].t.pc))
      && HandlerMove(c, ViewOf(c, s), ViewOf(c, s'))
    requires forall j :: 0 <= j < c.n && j != s.leader ==>
      (CpuOk(c, ViewOf(c, s), j, s.cpu[j]) ==> MoveFits(ViewOf(c, s), ViewOf(c, s'), j, s.cpu[j]))
    requires RequestOk(s'.cpu[s.leader].t, s')
    ensures Inv(c, s')
  {
    LeaderIsMember(c, s);
    var b := s.cpu[s.leader];
    HandlerLeader(c, ViewOf(c, s), ViewOf(c, s'), SharedOf(s), b.present, b.busy);
    forall j | 0 <= j < c.n && j != s.leader
      ensures CpuOk(c, ViewOf(c, s'), j, s.cpu[j])
        && Owed(c, ViewOf(c, s'), j, s.cpu[j]) == Owed(c, ViewOf(c, s), j, s.cpu[j])
    {
      assert CpuOk(c, ViewOf(c, s), j, s.cpu[j]);
      HandlerLocal(c, ViewOf(c, s), ViewOf(c, s'), j, s.cpu[j]);
    }
    assert Members(s') == Members(s);
    BspFrame(c, s, s', s'.cpu[s.leader]);
  }

  lemma BspHandlerStep(c: Config, s: State, a: Choice, s': State)
    requires Inv(c, s) && 0 <= s.leader && s.cpu[s.leader].t.pc.BspHandler? && NextBsp(c, s, s.leader, a) == Some(s')
    ensures Inv(c, s')
  {
    HandlerStep(c, s, s');
  }

  lemma BspTasksStartStep(c: Config, s: State, a: Choice, s': State)
    requires Inv(c, s) && 0 <= s.leader && s.cpu[s.leader].t.pc.BspTasks? && NextBsp(c, s, s.leader, a) == Some(s')
    requires a.Start?
    ensures Inv(c, s')
  {
    HandlerStep(c, s, s');
  }

  lemma BspTasksDoneStep(c: Config, s: State, a: Choice, s': State)
    requires Inv(c, s) && 0 <= s.leader && s.cpu[s.leader].t.pc.BspTasks? && NextBsp(c, s, s.leader, a) == Some(s')
    requires !a.Start?
    ensures Inv(c, s')
  {
    LeaderIsMember(c, s);
    assert Members(s') == Members(s);
    SameForAll(c, s, s');
    BspFrame(c, s, s', s'.cpu[s.leader]);
  }

  /** A move of the BSP in the drain loop at index j - 1. */
  ghost predicate DrainMove(x: View, x': View, j: nat) {
    && x' == x.(lb := x.lb.(pc := x'.lb.pc)) && 0 < j
    && (x.lb.pc == BspDrain(j) || x.lb.pc == BspDrainTake(j) || x.lb.pc == BspDrainDrop(j))
    && (x'.lb.pc == BspDrainTake(j) || x'.lb.pc == BspDrainDrop(j) || x'.lb.pc == BspDrain(j - 1))
  }

  lemma DrainElsewhere(c: Config, x: View, x': View, j: nat, i: int, v: Cpu)
    requires CpuOk(c, x, i, v) && 0 <= x.leader && i != x.leader && DrainMove(x, x', j) && i != j - 1
    ensures MoveFits(x, x', i, v)
  {
  }

  lemma DrainFrame(c: Config, s: State, s': State, pc': Pc, t: nat, v': Cpu)
    requires Inv(c, s) && 0 <= s.leader && t < c.n && t != s.leader && s.cpu[t].member
    requires s' == Put(Put(s, s.leader, Goto(s.cpu[s.leader], pc')), t, v') && v'.member && v'.t == s.cpu[t].t
    requires BspPcOk(c, s.cpu[s.leader].t.(pc := pc'), s.leader) && DrainMove(ViewOf(c, s), ViewOf(c, s'), t + 1)
    requires CpuOk(c, ViewOf(c, s'), t, v')
    ensures Inv(c, s')
  {
    forall j | 0 <= j < c.n && j != s.leader && j != t && CpuOk(c, ViewOf(c, s), j, s.cpu[j])
      ensures MoveFits(ViewOf(c, s), ViewOf(c, s'), j, s.cpu[j])
    {
      DrainElsewhere(c, ViewOf(c, s), ViewOf(c, s'), t + 1, j, s.cpu[j]);
    }
    HandlerFrame(c, s, s', pc', t, v');
  }

  lemma BspDrainedStep(c: Config, s: State, a: Choice, s': State)
    requires Inv(c, s) && 0 <= s.leader && s.cpu[s.leader].t.pc == BspDrain(0) && NextBsp(c, s, s.leader, a) == Some(s')
    ensures Inv(c, s')
  {
    HandlerStep(c, s, s');
  }

  lemma BspDrainHereLocal(c: Config, x: View, x': View, i: nat, v: Cpu)
    requires CpuOk(c, x, i, v) && 0 <= x.leader && i != x.leader && x.lb.pc.BspDrain? && i == x.lb.pc.j - 1
    requires x' == x.(lb := x.lb.(pc := if v.present then BspDrainTake(i + 1) else BspDrain(i)))
    ensures MoveFits(x, x', i, v)
  {
  }

  lemma BspDrainStep(c: Config, s: State, a: Choice, s': State)
    requires Inv(c, s) && 0 <= s.leader && s.cpu[s.leader].t.pc.BspDrain? && NextBsp(c, s, s.leader, a) == Some(s')
    requires 0 < s.cpu[s.leader].t.pc.j
    ensures Inv(c, s')
  {
    var x, x', d := ViewOf(c, s), ViewOf(c, s'), s.cpu[s.leader].t.pc.j;
    assert d <= c.n;
    forall j | 0 <= j < c.n && j != s.leader && CpuOk(c, x, j, s.cpu[j]) ensures MoveFits(x, x', j, s.cpu[j]) {
      if j == d - 1 {
        BspDrainHereLocal(c, x, x', j, s.cpu[j]);
      } else {
        DrainElsewhere(c, x, x', d, j, s.cpu[j]);
      }
    }
    HandlerStep(c, s, s');
  }

  lemma StartLookStep(c: Config, s: State, a: Choice, s': State)
    requires Inv(c, s) && 0 <= s.leader && s.cpu[s.leader].t.pc.BspStart? && NextBsp(c, s, s.leader, a) == Some(s')
    requires s.cpu[s.leader].t.pc.stage == LookPresent
    ensures Inv(c, s')
  {
    HandlerStep(c, s, s');
  }

  lemma StartRefusedEffect(c: Config, s: State, a: Choice, s': State)
    requires Sized(c, s) && 0 <= s.leader && s.cpu[s.leader].t.pc.BspStart? && NextBsp(c, s, s.leader, a) == Some(s')
    requires s.cpu[s.leader].t.pc.stage == TakeBusy && !s'.cpu[s.leader].t.pc.BspStart?
    ensures var req := s.cpu[s.leader].t.pc.req;
      && req.target < c.n && req.target != s.leader
      && s' == Put(Put(s, s.leader, Goto(s.cpu[s.leader], if req.late then BspTasks else BspHandler)), req.target,
         s.cpu[req.target])
  {
  }

  lemma StartRefusedStep(c: Config, s: State, a: Choice, s': State)
    requires Inv(c, s) && 0 <= s.leader && s.cpu[s.leader].t.pc.BspStart? && NextBsp(c, s, s.leader, a) == Some(s')
    requires s.cpu[s.leader].t.pc.stage == TakeBusy && !s'.cpu[s.leader].t.pc.BspStart?
    ensures Inv(c, s')
  {
    var t := s.cpu[s.leader].t.pc.req.target;
    StartRefusedEffect(c, s, a, s');
    TouchedIsAp(c, s, t);
    StartRefusedLocal(c, ViewOf(c, s), ViewOf(c, s'), s.cpu[t]);
    StartFrame(c, s, s', s'.cpu[s.leader].t.pc, t, s.cpu[t]);
  }

  lemma StartRefusedLocal(c: Config, x: View, x': View, v: Cpu)
    requires 0 <= x.leader && x.lb.pc.BspStart? && x.lb.pc.stage == TakeBusy && CpuOk(c, x, x.lb.pc.req.target, v)
    requires x.lb.pc.req.target != x.leader && v.present
    requires x' == x.(lb := x.lb.(pc := if x.lb.pc.req.late then BspTasks else BspHandler))
    ensures CpuOk(c, x', x.lb.pc.req.target, v)
  {
  }

  lemma StartClaimLocal(c: Config, x: View, x': View, v: Cpu, v': Cpu)
    requires 0 <= x.leader && x.lb.pc.BspStart? && x.lb.pc.stage == TakeBusy && CpuOk(c, x, x.lb.pc.req.target, v)
      && x.lb.pc.req.target != x.leader && v.present
    requires v' == v.(busy := true, job := Claimed)
    requires !v.busy && x' == x.(lb := x.lb.(pc := BspStart(PutProcedure, x.lb.pc.req)))
    ensures CpuOk(c, x', x.lb.pc.req.target, v')
  {
  }

  lemma StartClaimStep(c: Config, s: State, a: Choice, s': State)
    requires Inv(c, s) && 0 <= s.leader && s.cpu[s.leader].t.pc.BspStart? && NextBsp(c, s, s.leader, a) == Some(s')
    requires s.cpu[s.leader].t.pc.stage == TakeBusy && s'.cpu[s.leader].t.pc.BspStart?
    ensures Inv(c, s')
  {
    LeaderIsMember(c, s);
    var t := s.cpu[s.leader].t.pc.req.target;
    assert CpuOk(c, ViewOf(c, s), t, s.cpu[t]);
    StartClaimLocal(c, ViewOf(c, s), ViewOf(c, s'), s.cpu[t], s'.cpu[t]);
    StartFrame(c, s, s', s'.cpu[s.leader].t.pc, t, s'.cpu[t]);
  }

  lemma StartProcedureLocal(c: Config, x: View, x': View, v: Cpu, v': Cpu)
    requires 0 <= x.leader && x.lb.pc.BspStart? && x.lb.pc.stage == PutProcedure && CpuOk(c, x, x.lb.pc.req.target, v)
      && x.lb.pc.req.target != x.leader && v.present
    requires v' == v.(task := v.task.(procedure := x.lb.pc.req.task.procedure))
    requires x' == x.(lb := x.lb.(pc := BspStart(PutParameter, x.lb.pc.req)))
    ensures CpuOk(c, x', x.lb.pc.req.target, v')
  {
  }

  lemma StartProcedureStep(c: Config, s: State, a: Choice, s': State)
    requires Inv(c, s) && 0 <= s.leader && s.cpu[s.leader].t.pc.BspStart? && NextBsp(c, s, s.leader, a) == Some(s')
    requires s.cpu[s.leader].t.pc.stage == PutProcedure
    ensures Inv(c, s')
  {
    LeaderIsMember(c, s);
    var t := s.cpu[s.leader].t.pc.req.target;
    assert CpuOk(c, ViewOf(c, s), t, s.cpu[t]);
    StartProcedureLocal(c, ViewOf(c, s), ViewOf(c, s'), s.cpu[t], s'.cpu[t]);
    StartFrame(c, s, s', s'.cpu[s.leader].t.pc, t, s'.cpu[t]);
  }

  lemma StartParameterLocal(c: Config, x: View, x': View, v: Cpu, v': Cpu)
    requires 0 <= x.leader && x.lb.pc.BspStart? && x.lb.pc.stage == PutParameter && CpuOk(c, x, x.lb.pc.req.target, v)
      && x.lb.pc.req.target != x.leader && v.present
    requires v' == v.(task := v.task.(parameter := x.lb.pc.req.task.parameter))
    requires x' == x.(lb := x.lb.(pc := BspStart(PutToken, x.lb.pc.req)))
    ensures CpuOk(c, x', x.lb.pc.req.target, v')
  {
  }

  lemma StartParameterStep(c: Config, s: State, a: Choice, s': State)
    requires Inv(c, s) && 0 <= s.leader && s.cpu[s.leader].t.pc.BspStart? && NextBsp(c, s, s.leader, a) == Some(s')
    requires s.cpu[s.leader].t.pc.stage == PutParameter
    ensures Inv(c, s')
  {
    LeaderIsMember(c, s);
    var t := s.cpu[s.leader].t.pc.req.target;
    assert CpuOk(c, ViewOf(c, s), t, s.cpu[t]);
    StartParameterLocal(c, ViewOf(c, s), ViewOf(c, s'), s.cpu[t], s'.cpu[t]);
    StartFrame(c, s, s', s'.cpu[s.leader].t.pc, t, s'.cpu[t]);
  }

  lemma StartTokenLocal(c: Config, x: View, x': View, v: Cpu, v': Cpu)
    requires 0 <= x.leader && x.lb.pc.BspStart? && x.lb.pc.stage == PutToken && CpuOk(c, x, x.lb.pc.req.target, v)
      && x.lb.pc.req.target != x.leader && v.present
    requires v' == v.(run := v.run + 1, job := Queued, accepted := v.accepted + [x.lb.pc.req.task])
    requires v.task == x.lb.pc.req.task && (!x.lb.pc.req.blocking ==> !x.lb.pc.req.late)
      && x' == x.(lb := x.lb.(pc := if x.lb.pc.req.blocking then BspStart(AwaitBusy, x.lb.pc.req) else BspHandler))
    ensures CpuOk(c, x', x.lb.pc.req.target, v')
  {
  }

  lemma StartTokenStep(c: Config, s: State, a: Choice, s': State)
    requires Inv(c, s) && 0 <= s.leader && s.cpu[s.leader].t.pc.BspStart? && NextBsp(c, s, s.leader, a) == Some(s')
    requires s.cpu[s.leader].t.pc.stage == PutToken
    ensures Inv(c, s')
  {
    LeaderIsMember(c, s);
    var t := s.cpu[s.leader].t.pc.req.target;
    assert CpuOk(c, ViewOf(c, s), t, s.cpu[t]);
    StartTokenLocal(c, ViewOf(c, s), ViewOf(c, s'), s.cpu[t], s'.cpu[t]);
    StartFrame(c, s, s', s'.cpu[s.leader].t.pc, t, s'.cpu[t]);
  }

  lemma StartAwaitLocal(c: Config, x: View, x': View, v: Cpu, v': Cpu)
    requires 0 <= x.leader && x.lb.pc.BspStart? && x.lb.pc.stage == AwaitBusy && CpuOk(c, x, x.lb.pc.req.target, v)
      && x.lb.pc.req.target != x.leader && v.present
    requires v' == v.(busy := true)
    requires !v.busy && x' == x.(lb := x.lb.(pc := BspStart(DropBusy, x.lb.pc.req)))
    ensures CpuOk(c, x', x.lb.pc.req.target, v')
  {
  }

  lemma StartAwaitStep(c: Config, s: State, a: Choice, s': State)
    requires Inv(c, s) && 0 <= s.leader && s.cpu[s.leader].t.pc.BspStart? && NextBsp(c, s, s.leader, a) == Some(s')
    requires s.cpu[s.leader].t.pc.stage == AwaitBusy
    ensures Inv(c, s')
  {
    LeaderIsMember(c, s);
    var t := s.cpu[s.leader].t.pc.req.target;
    assert CpuOk(c, ViewOf(c, s), t, s.cpu[t]);
    StartAwaitLocal(c, ViewOf(c, s), ViewOf(c, s'), s.cpu[t], s'.cpu[t]);
    StartFrame(c, s, s', s'.cpu[s.leader].t.pc, t, s'.cpu[t]);
  }

  lemma StartDropLocal(c: Config, x: View, x': View, v: Cpu, v': Cpu)
    requires 0 <= x.leader && x.lb.pc.BspStart? && x.lb.pc.stage == DropBusy && CpuOk(c, x, x.lb.pc.req.target, v)
      && x.lb.pc.req.target != x.leader && v.present
    requires v' == v.(busy := false)
    requires x' == x.(lb := x.lb.(pc := if x.lb.pc.req.late then BspTasks else BspHandler))
    ensures CpuOk(c, x', x.lb.pc.req.target, v')
  {
  }

  lemma StartDropStep(c: Config, s: State, a: Choice, s': State)
    requires Inv(c, s) && 0 <= s.leader && s.cpu[s.leader].t.pc.BspStart? && NextBsp(c, s, s.leader, a) == Some(s')
    requires s.cpu[s.leader].t.pc.stage == DropBusy
    ensures Inv(c, s')
  {
    LeaderIsMember(c, s);
    var t := s.cpu[s.leader].t.pc.req.target;
    assert CpuOk(c, ViewOf(c, s), t, s.cpu[t]);
    StartDropLocal(c, ViewOf(c, s), ViewOf(c, s'), s.cpu[t], s'.cpu[t]);
    StartFrame(c, s, s', s'.cpu[s.leader].t.pc, t, s'.cpu[t]);
  }

  lemma BspDrainTakeLocal(c: Config, x: View, x': View, i: nat, v: Cpu, v': Cpu)
    requires 0 <= x.leader && x.lb.pc.BspDrainTake? && i == x.lb.pc.j - 1 && CpuOk(c, x, i, v) && i != x.leader
      && v.present
    requires v' == v.(busy := true)
    requires !v.busy && x' == x.(lb := x.lb.(pc := BspDrainDrop(x.lb.pc.j)))
    ensures CpuOk(c, x', i, v')
  {
  }

  lemma BspDrainTakeStep(c: Config, s: State, a: Choice, s': State)
    requires Inv(c, s) && 0 <= s.leader && s.cpu[s.leader].t.pc.BspDrainTake? && NextBsp(c, s, s.leader, a) == Some(s')
    ensures Inv(c, s')
  {
    var t := s.cpu[s.leader].t.pc.j - 1;
    TouchedIsAp(c, s, t);
    BspDrainTakeLocal(c, ViewOf(c, s), ViewOf(c, s'), t, s.cpu[t], s'.cpu[t]);
    DrainFrame(c, s, s', s'.cpu[s.leader].t.pc, t, s'.cpu[t]);
  }

  lemma BspDrainDropLocal(c: Config, x: View, x': View, i: nat, v: Cpu, v': Cpu)
    requires 0 <= x.leader && x.lb.pc.BspDrainDrop? && i == x.lb.pc.j - 1 && CpuOk(c, x, i, v) && i != x.leader
      && v.present
    requires v' == v.(busy := false)
    requires x' == x.(lb := x.lb.(pc := BspDrain(i)))
    ensures CpuOk(c, x', i, v')
  {
  }

  lemma BspDrainDropStep(c: Config, s: State, a: Choice, s': State)
    requires Inv(c, s) && 0 <= s.leader && s.cpu[s.leader].t.pc.BspDrainDrop? && NextBsp(c, s, s.leader, a) == Some(s')
    ensures Inv(c, s')
  {
    var t := s.cpu[s.leader].t.pc.j - 1;
    TouchedIsAp(c, s, t);
    assert s' == SetBusy(Put(s, s.leader, Goto(s.cpu[s.leader], BspDrain(t))), t, false);
    BspDrainDropLocal(c, ViewOf(c, s), ViewOf(c, s'), t, s.cpu[t], s'.cpu[t]);
    DrainFrame(c, s, s', s'.cpu[s.leader].t.pc, t, s'.cpu[t]);
  }

  // ---------------------------------------------------------------- the last write

  /** When the BSP is through its last barrier every AP is done and every semaphore is back to zero. */
  lemma LastBarrier(c: Config, s: State, i: nat)
    requires Inv(c, s) && 0 <= s.leader && i < c.n && Done(c, s.cpu[s.leader].t) == c.K()
    ensures s.cpu[i].run == 0 && !s.cpu[i].present && s.cpu[i].job == NoJob && s.cpu[i].accepted == s.cpu[i].ran
    ensures s.cpu[i].member && i != s.leader ==> s.cpu[i].t.pc.Held?
  {
    assert CpuOk(c, ViewOf(c, s), i, s.cpu[i]);
    if i == s.leader {
      forall j | 0 <= j < c.n ensures Owing(c, s)[j] == 0 {
        assert CpuOk(c, ViewOf(c, s), j, s.cpu[j]);
      }
      SumZero(Owing(c, s));
    }
  }

  lemma BspUnsyncStep(c: Config, s: State, a: Choice, s': State)
    requires Inv(c, s) && 0 <= s.leader && s.cpu[s.leader].t.pc.BspUnsync? && NextBsp(c, s, s.leader, a) == Some(s')
    ensures Quiet(c, s') && Inv(c, s')
  {
    forall i | 0 <= i < c.n ensures !s'.cpu[i].member && OutsiderOk(s'.cpu[i]) && s'.cpu[i].accepted == s'.cpu[i].ran {
      LastBarrier(c, s, i);
      assert CpuOk(c, ViewOf(c, s), i, s.cpu[i]);
    }
    QuietIsInv(c, s');
  }

  // ---------------------------------------------------------------- every step

  lemma EntryStep(c: Config, s: State, i: nat, a: Choice, s': State)
    requires Inv(c, s) && i < c.n && NextEntry(c, s, i, a) == Some(s')
    ensures Inv(c, s')
  {
    assert CpuOk(c, ViewOf(c, s), i, s.cpu[i]);
    var pc := s.cpu[i].t.pc;
    if pc.CountIn? && s'.counter != s.counter {
      CountedStep(c, s, i, a, s');
    } else if Passing(s, s', i) {
      PassingStep(c, s, i, a, s');
    } else if i == s.leader {
      TestBspLeaderStep(c, s, a, s');
    } else if s'.leader != s.leader {
      ElectedStep(c, s, i, a, s');
    } else {
      JoiningStep(c, s, i, a, s');
    }
  }

  lemma ApStep(c: Config, s: State, i: nat, s': State)
    requires Inv(c, s) && i < c.n && NextAp(c, s, i) == Some(s')
    ensures Inv(c, s')
  {
    match s.cpu[i].t.pc
    case ApReadMode => ApReadModeStep(c, s, i, s');
    case ApSpin => ApSpinStep(c, s, i, s');
    case ApReadBsp => ApReadBspStep(c, s, i, s');
    case ApArrive => ApArriveStep(c, s, i, s');
    case ApSignal(_) => ApSignalStep(c, s, i, s');
    case ApWait(_) => ApWaitStep(c, s, i, s');
    case ApCheck => ApCheckStep(c, s, i, s');
    case ApCall => ApCallStep(c, s, i, s');
    case ApFree => ApFreeStep(c, s, i, s');
    case ApDepart => ApDepartStep(c, s, i, s');
  }

  /** Only the winner of the election runs BSPHandler. */
  lemma BspIsLeader(c: Config, s: State, i: nat)
    requires Inv(c, s) && i < c.n && IsBspPc(s.cpu[i].t.pc)
    ensures i == s.leader
  {
    assert CpuOk(c, ViewOf(c, s), i, s.cpu[i]);
  }

  lemma StartStep(c: Config, s: State, a: Choice, s': State)
    requires Inv(c, s) && 0 <= s.leader && s.cpu[s.leader].t.pc.BspStart? && NextBsp(c, s, s.leader, a) == Some(s')
    ensures Inv(c, s')
  {
    match s.cpu[s.leader].t.pc.stage
    case LookPresent => StartLookStep(c, s, a, s');
    case TakeBusy =>
      if s'.cpu[s.leader].t.pc.BspStart? { StartClaimStep(c, s, a, s'); } else { StartRefusedStep(c, s, a, s'); }
    case PutProcedure => StartProcedureStep(c, s, a, s');
    case PutParameter => StartParameterStep(c, s, a, s');
    case PutToken => StartTokenStep(c, s, a, s');
    case AwaitBusy => StartAwaitStep(c, s, a, s');
    case DropBusy => StartDropStep(c, s, a, s');
  }

  lemma BspStep(c: Config, s: State, a: Choice, s': State)
    requires Inv(c, s) && 0 <= s.leader && NextBsp(c, s, s.leader, a) == Some(s')
    ensures Inv(c, s')
  {
    match s.cpu[s.leader].t.pc
    case BspReadMode => BspReadModeStep(c, s, a, s');
    case BspEnter => BspEnterStep(c, s, a, s');
    case BspPresent => BspPresentStep(c, s, a, s');
    case BspClearStatus => BspClearStatusStep(c, s, a, s');
    case BspSync => BspSyncStep(c, s, a, s');
    case BspLock => BspLockStep(c, s, a, s');
    case BspScan(j, found) =>
      if s'.cpu[s.leader].t.pc.BspLeave? { BspScanDoneStep(c, s, a, s'); }
      else if j == 0 { BspScanAgainStep(c, s, a, s'); }
      else { BspScanNextStep(c, s, a, s'); }
    case BspWait(k, left) => if left == 0 { BspWaitDoneStep(c, s, a, s'); } else { BspWaitTokenStep(c, s, a, s'); }
    case BspCheck(k, j) => if j == 0 { BspReleasedStep(c, s, a, s'); } else { BspCheckStep(c, s, a, s'); }
    case BspSignal(_, _) => BspSignalStep(c, s, a, s');
    case BspOwnBusy => BspOwnBusyStep(c, s, a, s');
    case BspHandler => BspHandlerStep(c, s, a, s');
    case BspStart(_, _) => StartStep(c, s, a, s');
    case BspDrain(j) => if j == 0 { BspDrainedStep(c, s, a, s'); } else { BspDrainStep(c, s, a, s'); }
    case BspDrainTake(_) => BspDrainTakeStep(c, s, a, s');
    case BspDrainDrop(_) => BspDrainDropStep(c, s, a, s');
    case BspTasks => if a.Start? { BspTasksStartStep(c, s, a, s'); } else { BspTasksDoneStep(c, s, a, s'); }
    case BspLeave => BspLeaveStep(c, s, a, s');
    case BspSetMode => BspSetModeStep(c, s, a, s');
    case BspAbsent => BspAbsentStep(c, s, a, s');
    case BspUnelect => BspUnelectStep(c, s, a, s');
    case BspReset => BspResetStep(c, s, a, s');
    case BspUnsync => BspUnsyncStep(c, s, a, s');
  }

  lemma NextKeepsInv(c: Config, s: State, i: nat, a: Choice, s': State)
    requires Inv(c, s) && i < c.n && Next(c, s, i, a) == Some(s')
    ensures Inv(c, s')
  {
    if IsBspPc(s.cpu[i].t.pc) {
      BspIsLeader(c, s, i);
      BspStep(c, s, a, s');
    } else if IsApPc(s.cpu[i].t.pc) {
      ApStep(c, s, i, s');
    } else {
      EntryStep(c, s, i, a, s');
    }
  }

  /** A step of the environment touches nothing the invariant speaks of. */
  lemma EnvironmentKeepsInv(c: Config, s: State, s': State)
    requires Inv(c, s) && s' == s.(smiStatus := s'.smiStatus, nextMode := s'.nextMode)
    ensures Inv(c, s')
  {
    assert Members(s') == Members(s);
    if 0 <= s.leader {
      assert Owing(c, s') == Owing(c, s);
      var j := s.cpu[s.leader].t.pc;
      if j.BspScan? && j.j <= c.n { PresenceSame(s, s', j.j); }
    }
  }

  lemma StepKeepsInv(c: Config, s: State, s': State)
    requires Inv(c, s) && Step(c, s, s')
    ensures Inv(c, s')
  {
    if i: nat, a :| i < c.n && Next(c, s, i, a) == Some(s') {
      NextKeepsInv(c, s, i, a, s');
    } else {
      EnvironmentKeepsInv(c, s, s');
    }
  }
}
