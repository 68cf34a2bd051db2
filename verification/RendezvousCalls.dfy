/** A scheduled procedure from the call to its run: which calls go through, which are refused, and how an accepted one
    runs. */
module RendezvousCalls {
  import opened Common
  import opened Sums
  import opened Rendezvous
  import opened RendezvousInvariant
  import opened RendezvousSafety
  import opened RendezvousTheorems
  import opened RendezvousProgress

  /** The step of CPU i leads from s to s', whatever it chooses except to refuse a removed target. */
  ghost predicate Moves(c: Config, i: nat, s: State, s': State) {
    Sized(c, s) && i < c.n && forall a :: a != Skip ==> Next(c, s, i, a) == Some(s')
  }

  /** A stretch in which CPU i alone moves. */
  ghost predicate Alone(c: Config, i: nat, tr: seq<State>) {
    |tr| > 0 && forall k {:trigger tr[k]} :: 0 < k < |tr| ==> Moves(c, i, tr[k - 1], tr[k])
  }

  /** The BSP is about to look for the target of a call. */
  ghost predicate Calling(c: Config, s: State) {
    Reachable(c, s) && 0 <= s.leader && s.cpu[s.leader].t.pc.BspStart? && s.cpu[s.leader].t.pc.stage == LookPresent
  }

  /** An SMI handler may call either form for any CPU; PerformRemainingTasks uses the blocking one. */
  lemma CallBegins(c: Config, s: State, b: nat, req: Request)
    requires Sized(c, s) && b < c.n && (s.cpu[b].t.pc.BspHandler? || s.cpu[b].t.pc.BspTasks?)
    ensures var v := s.cpu[b];
      Next(c, s, b, Start(req)) == Some(s.(cpu := s.cpu[b := v.(t := v.t.(pc :=
        BspStart(LookPresent, if v.t.pc.BspHandler? then Request(req.target, req.task, req.blocking, false)
                              else Request(req.target, req.task, true, true))))]))
  {
  }

  // ---------------------------------------------------------------- a call that goes through

  /** State s with CPU b at pc and CPU t replaced by w. */
  ghost function With(s: State, b: nat, pc: Pc, t: nat, w: Cpu): State
    requires b < |s.cpu| && t < |s.cpu|
  {
    s.(cpu := s.cpu[b := s.cpu[b].(t := s.cpu[b].t.(pc := pc))][t := w])
  }

  lemma WithAgain(s: State, b: nat, pc: Pc, t: nat, w: Cpu, pc': Pc, w': Cpu)
    requires b < |s.cpu| && t < |s.cpu| && b != t
    ensures With(With(s, b, pc, t, w), b, pc', t, w') == With(s, b, pc', t, w')
  {
    var m := With(s, b, pc, t, w);
    assert m.cpu[b].(t := m.cpu[b].t.(pc := pc')) == s.cpu[b].(t := s.cpu[b].t.(pc := pc'));
    assert With(m, b, pc', t, w').cpu == With(s, b, pc', t, w').cpu;
  }

  /** The BSP is in the call, at this stage, with a proper target. */
  ghost predicate At(c: Config, s: State, b: nat, stage: Stage, req: Request) {
    && Sized(c, s) && b < c.n && req.target < c.n && req.target != b
    && s.cpu[b].t.pc == BspStart(stage, req)
  }

  lemma LookMove(c: Config, s: State, b: nat, req: Request)
    requires At(c, s, b, LookPresent, req) && s.cpu[req.target].present
    ensures Moves(c, b, s, With(s, b, BspStart(TakeBusy, req), req.target, s.cpu[req.target]))
  {
    var s' := With(s, b, BspStart(TakeBusy, req), req.target, s.cpu[req.target]);
    assert s'.cpu == s.cpu[b := Goto(s.cpu[b], BspStart(TakeBusy, req))];
  }

  lemma ClaimMove(c: Config, s: State, b: nat, req: Request)
    requires At(c, s, b, TakeBusy, req) && !s.cpu[req.target].busy
    ensures Moves(c, b, s, With(s, b, BspStart(PutProcedure, req), req.target,
                                s.cpu[req.target].(busy := true, job := Claimed)))
  {
  }

  lemma ProcedureMove(c: Config, s: State, b: nat, req: Request)
    requires At(c, s, b, PutProcedure, req)
    ensures var w := s.cpu[req.target];
      Moves(c, b, s, With(s, b, BspStart(PutParameter, req), req.target,
                          w.(task := Task(req.task.procedure, w.task.parameter))))
  {
  }

  lemma ParameterMove(c: Config, s: State, b: nat, req: Request)
    requires At(c, s, b, PutParameter, req)
    ensures var w := s.cpu[req.target];
      Moves(c, b, s, With(s, b, BspStart(PutToken, req), req.target,
                          w.(task := Task(w.task.procedure, req.task.parameter))))
  {
  }

  lemma TokenMove(c: Config, s: State, b: nat, req: Request)
    requires At(c, s, b, PutToken, req) && s.cpu[req.target].run < LOCKED
    ensures var w := s.cpu[req.target];
      Moves(c, b, s, With(s, b, if req.blocking then BspStart(AwaitBusy, req) else if req.late then BspTasks
                                else BspHandler, req.target,
                          w.(job := Queued, run := w.run + 1, accepted := w.accepted + [req.task])))
  {
  }

  /** The four steps that hand the procedure over to a target whose Busy lock is free. */
  lemma HandOver(c: Config, s: State, b: nat, req: Request) returns (s2: State, s3: State, s4: State, s5: State)
    requires At(c, s, b, TakeBusy, req) && !s.cpu[req.target].busy && s.cpu[req.target].run < LOCKED
    ensures Moves(c, b, s, s2) && Moves(c, b, s2, s3) && Moves(c, b, s3, s4) && Moves(c, b, s4, s5)
    ensures var w := s.cpu[req.target];
      s5 == With(s, b, if req.blocking then BspStart(AwaitBusy, req) else if req.late then BspTasks else BspHandler,
                 req.target, w.(busy := true, task := req.task, run := w.run + 1, job := Queued,
                                accepted := w.accepted + [req.task]))
  {
    var t, w := req.target, s.cpu[req.target];
    var w2 := w.(busy := true, job := Claimed);
    s2 := With(s, b, BspStart(PutProcedure, req), t, w2);
    ClaimMove(c, s, b, req);
    var w3 := w2.(task := Task(req.task.procedure, w.task.parameter));
    s3 := With(s, b, BspStart(PutParameter, req), t, w3);
    ProcedureMove(c, s2, b, req);
    WithAgain(s, b, BspStart(PutProcedure, req), t, w2, BspStart(PutParameter, req), w3);
    var w4 := w3.(task := req.task);
    s4 := With(s, b, BspStart(PutToken, req), t, w4);
    ParameterMove(c, s3, b, req);
    WithAgain(s, b, BspStart(PutParameter, req), t, w3, BspStart(PutToken, req), w4);
    var back := if req.blocking then BspStart(AwaitBusy, req) else if req.late then BspTasks else BspHandler;
    var w5 := w4.(job := Queued, run := w.run + 1, accepted := w.accepted + [req.task]);
    s5 := With(s, b, back, t, w5);
    TokenMove(c, s4, b, req);
    WithAgain(s, b, BspStart(PutToken, req), t, w4, back, w5);
  }

  lemma TargetRun(c: Config, s: State, t: nat)
    requires Reachable(c, s) && t < c.n
    ensures s.cpu[t].run < LOCKED
  {
    ReachableInv(c, s);
    RunFits(c, s, t);
  }

  /** A call for a CPU that is present, not busy and not the BSP goes through: five steps of the BSP hand over the
      procedure and its parameter and give the target one more token, and nothing else changes. */
  lemma CallGoesThrough(c: Config, s: State) returns (tr: seq<State>)
    requires Calling(c, s)
    requires var t := s.cpu[s.leader].t.pc.req.target;
      t < c.n && t != s.leader && s.cpu[t].present && !s.cpu[t].busy
    ensures Alone(c, s.leader, tr) && |tr| == 6 && tr[0] == s
    ensures var b, req := s.cpu[s.leader], s.cpu[s.leader].t.pc.req;
      var t := s.cpu[req.target];
      tr[5] == s.(cpu := s.cpu
        [s.leader := b.(t := b.t.(pc :=
          if req.blocking then BspStart(AwaitBusy, req) else if req.late then BspTasks else BspHandler))]
        [req.target := t.(busy := true, task := req.task, run := t.run + 1, job := Queued,
                          accepted := t.accepted + [req.task])])
  {
    var b, req := s.leader, s.cpu[s.leader].t.pc.req;
    var t, w := req.target, s.cpu[req.target];
    TargetRun(c, s, t);
    LookMove(c, s, b, req);
    var s1 := With(s, b, BspStart(TakeBusy, req), t, w);
    var s2, s3, s4, s5 := HandOver(c, s1, b, req);
    WithAgain(s, b, BspStart(TakeBusy, req), t, w, s5.cpu[b].t.pc, s5.cpu[t]);
    tr := [s, s1, s2, s3, s4, s5];
  }

  // ---------------------------------------------------------------- a call that is refused

  /** A target that is out of range, is the BSP or is not present is refused: the BSP goes back, and nothing changes
      but its position. */
  lemma AbsentIsRefused(c: Config, s: State, a: Choice)
    requires Calling(c, s)
    requires var t := s.cpu[s.leader].t.pc.req.target; t >= c.n || t == s.leader || !s.cpu[t].present
    ensures var b := s.cpu[s.leader];
      Next(c, s, s.leader, a) == Some(s.(cpu := s.cpu
        [s.leader := b.(t := b.t.(pc := if b.t.pc.req.late then BspTasks else BspHandler))]))
  {
  }

  /** So is one whose Busy lock is taken, or that has been removed, one step later. */
  lemma BusyIsRefused(c: Config, s: State, a: Choice) returns (m: State)
    requires Calling(c, s)
    requires var t := s.cpu[s.leader].t.pc.req.target;
      t < c.n && t != s.leader && s.cpu[t].present && (s.cpu[t].busy || a == Skip)
    ensures Moves(c, s.leader, s, m)
    ensures var b := s.cpu[s.leader];
      m == s.(cpu := s.cpu[s.leader := b.(t := b.t.(pc := BspStart(TakeBusy, b.t.pc.req)))])
    ensures var b := s.cpu[s.leader];
      Next(c, m, s.leader, a) == Some(s.(cpu := s.cpu
        [s.leader := b.(t := b.t.(pc := if b.t.pc.req.late then BspTasks else BspHandler))]))
  {
    m := BusyRefuses(c, s, s.leader, s.cpu[s.leader].t.pc.req, a);
  }

  lemma BusyRefuses(c: Config, s: State, b: nat, req: Request, a: Choice) returns (m: State)
    requires At(c, s, b, LookPresent, req) && s.cpu[req.target].present && (s.cpu[req.target].busy || a == Skip)
    ensures Moves(c, b, s, m)
    ensures var v := s.cpu[b]; m == s.(cpu := s.cpu[b := v.(t := v.t.(pc := BspStart(TakeBusy, req)))])
    ensures var v := s.cpu[b];
      Next(c, m, b, a) == Some(s.(cpu := s.cpu[b := v.(t := v.t.(pc := if req.late then BspTasks else BspHandler))]))
  {
    LookMove(c, s, b, req);
    var w := s.cpu[req.target];
    m := With(s, b, BspStart(TakeBusy, req), req.target, w);
    WithSame(s, b, BspStart(TakeBusy, req), req.target);
    RefuseMove(c, m, b, req, a);
    var back := if req.late then BspTasks else BspHandler;
    WithAgain(s, b, BspStart(TakeBusy, req), req.target, w, back, w);
    WithSame(s, b, back, req.target);
  }

  lemma WithSame(s: State, b: nat, pc: Pc, t: nat)
    requires b < |s.cpu| && t < |s.cpu| && b != t
    ensures With(s, b, pc, t, s.cpu[t]) == s.(cpu := s.cpu[b := s.cpu[b].(t := s.cpu[b].t.(pc := pc))])
  {
    assert With(s, b, pc, t, s.cpu[t]).cpu == s.cpu[b := s.cpu[b].(t := s.cpu[b].t.(pc := pc))];
  }

  lemma RefuseMove(c: Config, s: State, b: nat, req: Request, a: Choice)
    requires At(c, s, b, TakeBusy, req) && (s.cpu[req.target].busy || a == Skip)
    ensures Next(c, s, b, a) == Some(With(s, b, if req.late then BspTasks else BspHandler, req.target,
                                          s.cpu[req.target]))
  {
    var back := if req.late then BspTasks else BspHandler;
    assert With(s, b, back, req.target, s.cpu[req.target]).cpu == s.cpu[b := Goto(s.cpu[b], back)];
  }

  // ---------------------------------------------------------------- an accepted procedure runs

  lemma TakeMove(c: Config, s: State, t: nat)
    requires Sized(c, s) && t < c.n && s.cpu[t].t.pc == ApWait(c.E()) && s.cpu[t].run > 0 && s.cpu[t].job == Queued
    ensures var v := s.cpu[t];
      Moves(c, t, s, Put(s, t, v.(t := v.t.(pc := ApCheck), run := v.run - 1, job := Taken)))
  {
  }

  lemma CheckMove(c: Config, s: State, t: nat)
    requires Sized(c, s) && t < c.n && s.cpu[t].t.pc.ApCheck? && s.insideSmm
    ensures Moves(c, t, s, Put(s, t, Goto(s.cpu[t], ApCall)))
  {
  }

  lemma CallMove(c: Config, s: State, t: nat)
    requires Sized(c, s) && t < c.n && s.cpu[t].t.pc.ApCall?
    ensures var v := s.cpu[t];
      Moves(c, t, s, Put(s, t, v.(t := v.t.(pc := ApFree), ran := v.ran + [v.task], job := Finished)))
  {
  }

  lemma FreeMove(c: Config, s: State, t: nat)
    requires Sized(c, s) && t < c.n && s.cpu[t].t.pc.ApFree?
    ensures var v := s.cpu[t];
      Moves(c, t, s, Put(s, t, v.(t := v.t.(pc := ApWait(c.E())), busy := false, job := NoJob)))
  {
  }

  /** An accepted procedure that has not run is on its way, and its target is held up by nothing. */
  lemma PendingIs(c: Config, s: State, t: nat)
    requires Inv(c, s) && t < c.n && s.cpu[t].accepted != s.cpu[t].ran
    ensures s.insideSmm && s.cpu[t].accepted == s.cpu[t].ran + [s.cpu[t].task]
    ensures s.cpu[t].t.pc == ApWait(c.E()) ==> s.cpu[t].job == Queued && s.cpu[t].run > 0
    ensures s.cpu[t].t.pc == ApWait(c.E()) || s.cpu[t].t.pc.ApCheck? || s.cpu[t].t.pc.ApCall?
  {
    assert CpuOk(c, ViewOf(c, s), t, s.cpu[t]);
  }

  /** What has been accepted can run at once: the target's own steps, at most four, run it with the procedure and
      parameter handed over, free the target's Busy lock and change nothing but the target. */
  lemma AcceptedRuns(c: Config, s: State, t: nat) returns (tr: seq<State>)
    requires Reachable(c, s) && t < c.n && s.cpu[t].accepted != s.cpu[t].ran
    ensures Alone(c, t, tr) && |tr| <= 5 && tr[0] == s
    ensures var s' := tr[|tr| - 1];
      && |s'.cpu| == c.n && s' == s.(cpu := s.cpu[t := s'.cpu[t]])
      && s'.cpu[t].ran == s.cpu[t].accepted == s'.cpu[t].accepted && s'.cpu[t].ran == s.cpu[t].ran + [s.cpu[t].task]
      && !s'.cpu[t].busy
  {
    PendingNow(c, s, t);
    if s.cpu[t].t.pc.ApWait? {
      TakeMove(c, s, t);
      var v := s.cpu[t];
      var m := Put(s, t, v.(t := v.t.(pc := ApCheck), run := v.run - 1, job := Taken));
      var m1, m2, m3 := RunsAtCheck(c, s, m, t);
      tr := [s, m, m1, m2, m3];
    } else if s.cpu[t].t.pc.ApCheck? {
      var m1, m2, m3 := RunsAtCheck(c, s, s, t);
      tr := [s, m1, m2, m3];
    } else {
      var m1, m2 := RunsAtCall(c, s, s, t);
      tr := [s, m1, m2];
    }
  }

  lemma PendingNow(c: Config, s: State, t: nat)
    requires Reachable(c, s) && t < c.n && s.cpu[t].accepted != s.cpu[t].ran
    ensures s.insideSmm && s.cpu[t].accepted == s.cpu[t].ran + [s.cpu[t].task]
    ensures s.cpu[t].t.pc == ApWait(c.E()) ==> s.cpu[t].job == Queued && s.cpu[t].run > 0
    ensures s.cpu[t].t.pc == ApWait(c.E()) || s.cpu[t].t.pc.ApCheck? || s.cpu[t].t.pc.ApCall?
  {
    ReachableInv(c, s);
    PendingIs(c, s, t);
  }

  /** State s but for CPU t. */
  ghost predicate ButFor(c: Config, s: State, m: State, t: nat) {
    Sized(c, s) && t < c.n && |m.cpu| == c.n && m == s.(cpu := s.cpu[t := m.cpu[t]])
  }

  ghost predicate HasRun(v: Cpu, v': Cpu) {
    v'.ran == v.ran + [v.task] && v'.accepted == v.accepted && !v'.busy
  }

  /** A target with the token in hand sees InsideSmm and runs its procedure. */
  lemma RunsAtCheck(c: Config, s: State, m: State, t: nat) returns (m1: State, m2: State, m3: State)
    requires ButFor(c, s, m, t) && m.cpu[t].t.pc.ApCheck? && m.insideSmm
    ensures Moves(c, t, m, m1) && Moves(c, t, m1, m2) && Moves(c, t, m2, m3)
    ensures ButFor(c, s, m3, t) && HasRun(m.cpu[t], m3.cpu[t])
  {
    CheckMove(c, m, t);
    m1 := Put(m, t, Goto(m.cpu[t], ApCall));
    m2, m3 := RunsAtCall(c, s, m1, t);
  }

  /** The target, one step short of its procedure, runs it and frees its Busy lock. */
  lemma RunsAtCall(c: Config, s: State, m: State, t: nat) returns (m1: State, m2: State)
    requires ButFor(c, s, m, t) && m.cpu[t].t.pc.ApCall?
    ensures Moves(c, t, m, m1) && Moves(c, t, m1, m2)
    ensures ButFor(c, s, m2, t) && HasRun(m.cpu[t], m2.cpu[t])
  {
    var v := m.cpu[t];
    CallMove(c, m, t);
    var v1 := v.(t := v.t.(pc := ApFree), ran := v.ran + [v.task], job := Finished);
    m1 := Put(m, t, v1);
    FreeMove(c, m1, t);
    m2 := Put(m1, t, v1.(t := v1.t.(pc := ApWait(c.E())), busy := false, job := NoJob));
    assert m2.cpu == s.cpu[t := m2.cpu[t]];
  }
}
