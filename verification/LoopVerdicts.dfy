/**
 What makes a task done: over every run of the loop, tasks become done only by turns whose work
 was verified, and if nothing aborts the loop, by exactly those.
 Source: core/src/loop_runner.rs, core/src/task_engine.rs.
 */
module LoopVerdicts {
  import opened Wrappers
  import opened Backlog
  import opened AutonomousLoop
  import opened TaskLockstep

  function DoneTasks(tasks: seq<Task>): nat {
    if tasks == [] then 0
    else DoneTasks(tasks[..|tasks| - 1]) + if tasks[|tasks| - 1].status.Done? then 1 else 0
  }

  /** A turn without error whose summary is complete, asks for no more, and passes verification. */
  predicate Verifies(t: Turn) {
    t.starts && !t.failed && t.summary.Some? && !t.continues && t.complete && t.verified
  }

  /** How many of the first n turns verify. */
  function VerifiedTurns(env: Env, n: nat): nat {
    if n == 0 then 0 else VerifiedTurns(env, n - 1) + Bit(Verifies(env(n - 1)))
  }

  function Bit(b: bool): nat {
    if b then 1 else 0
  }

  lemma {:induction false} DoneAfterUpdate(tasks: seq<Task>, i: nat, task: Task)
    requires i < |tasks|
    ensures DoneTasks(tasks[i := task]) + Bit(tasks[i].status.Done?) == DoneTasks(tasks) + Bit(task.status.Done?)
  {
    var n := |tasks| - 1;
    if i < n {
      assert tasks[i := task][..n] == tasks[..n][i := task];
      DoneAfterUpdate(tasks[..n], i, task);
    } else {
      assert tasks[i := task][..n] == tasks[..n];
    }
  }

  lemma MarkedDone(app: App, status: TaskStatus)
    requires Live(status)
    ensures DoneTasks(Marked(app, status).tasks) <= DoneTasks(app.tasks)
    ensures Lockstep(app) ==> DoneTasks(Marked(app, status).tasks) == DoneTasks(app.tasks)
  {
    var i := Current(app);
    if i.Some? {
      DoneAfterUpdate(app.tasks, i.value, app.tasks[i.value].(status := status));
      if Lockstep(app) { ActiveIsLast(app.tasks, app.active); }
    }
  }

  lemma ClosedDone(app: App, to: TaskStatus, summary: Option<string>)
    ensures DoneTasks(Closed(app, to, summary).tasks) <= DoneTasks(app.tasks) + Bit(to.Done?)
    ensures Lockstep(app) && app.active.Some? ==>
      DoneTasks(Closed(app, to, summary).tasks) == DoneTasks(app.tasks) + Bit(to.Done?)
  {
    var i := Current(app);
    if i.Some? {
      DoneAfterUpdate(app.tasks, i.value, app.tasks[i.value].(status := to, summary := summary));
    }
    if Lockstep(app) && app.active.Some? { ActiveIsLast(app.tasks, app.active); }
  }

  /** Deciding about a task makes it done only if the turn verifies. */
  lemma ResolvedDone(app: App, t: Turn, maxContinuations: nat)
    requires t.starts && (t.failed ==> app.hadError)
    ensures DoneTasks(Resolve(app, t, maxContinuations).0.tasks) <= DoneTasks(app.tasks) + Bit(Verifies(t))
  {
    ClosedDone(app.(phase := Idle), Failed, Some("provider execution failed"));
    ClosedDone(app.(phase := Idle), Failed, Some("provider returned no assistant summary"));
    ClosedDone(app.(phase := Escalating), Blocked, Some("continuation limit reached"));
    ClosedDone(app.(phase := Escalating), Blocked, Some(t.reason));
    MarkedDone(app.(phase := Checking), Verifying);
    ClosedDone(Marked(app.(phase := Checking), Verifying), Done, t.summary);
    ClosedDone(Marked(app.(phase := Checking), Verifying), Failed, Some(t.reason));
  }

  lemma TurnDone(app: App, t: Turn, maxContinuations: nat)
    ensures DoneTasks(PlayTurn(app, t, maxContinuations).0.tasks) <= DoneTasks(app.tasks) + Bit(Verifies(t))
  {
    var running := Marked(app.(phase := Executing), Running);
    MarkedDone(app.(phase := Executing), Running);
    if t.starts {
      ResolvedDone(running.(hadError := running.hadError || t.failed), t, maxContinuations);
    } else {
      ClosedDone(running.(phase := Escalating), Blocked, Some("provider start failed: " + t.reason));
    }
  }

  lemma ExecuteDone(app: App, env: Env, k: nat, maxContinuations: nat)
    ensures var run := Execute(app, env, k, maxContinuations);
            DoneTasks(run.app.tasks) + VerifiedTurns(env, k) <= DoneTasks(app.tasks) + VerifiedTurns(env, run.turn)
  {
    var open := (a: App, t: nat) =>
      DoneTasks(a.tasks) + VerifiedTurns(env, k) <= DoneTasks(app.tasks) + VerifiedTurns(env, t);
    var shut := (a: App, t: nat, next: Next) => open(a, t);
    forall a, t: nat
      ensures TurnTakes(env, maxContinuations, open, shut, a, t)
    {
      TurnDone(a, env(t), maxContinuations);
      OneMoreTurn(env, t);
    }
    ExecuteRule(app, env, k, maxContinuations, open, shut);
  }

  lemma OneMoreTurn(env: Env, t: nat)
    ensures VerifiedTurns(env, t + 1) == VerifiedTurns(env, t) + Bit(Verifies(env(t)))
  {
  }

  lemma PickDone(app: App)
    requires Pick(app).Some?
    ensures DoneTasks(Pick(app).value.tasks) == DoneTasks(app.tasks)
  {
  }

  lemma IterateDone(app: App, env: Env, k: nat, maxContinuations: nat)
    ensures var i := Iterate(app, env, k, maxContinuations);
            && (i.NothingReady? ==> i.app.tasks == app.tasks)
            && (!i.NothingReady? ==>
                  DoneTasks(i.app.tasks) + VerifiedTurns(env, k) <= DoneTasks(app.tasks) + VerifiedTurns(env, i.turn))
  {
    if Pick(app).Some? {
      PickDone(app);
      ExecuteDone(Pick(app).value, env, k, maxContinuations);
    }
  }

  /**
   From any state and for any course of events, error returns included: no more tasks become
   done than turns were verified.
   */
  lemma DoneOnlyIfVerified(app: App, env: Env, g: Guardrails)
    ensures var e := RunLoop(app, env, g);
            DoneTasks(e.app.tasks) <= DoneTasks(app.tasks) + VerifiedTurns(env, e.turn)
  {
    var step := Iterating(env, g.maxContinuations);
    var inv := (a: App, n: nat, t: nat) => DoneTasks(a.tasks) <= DoneTasks(app.tasks) + VerifiedTurns(env, t);
    forall a, n: nat, t: nat | inv(a, n, t) && step(a, t).Executed?
      ensures inv(step(a, t).app, n + 1, step(a, t).turn)
    {
      IterateDone(a, env, t, g.maxContinuations);
    }
    var last, at := LoopRule(step, g, app, 0, 0, 0, inv);
    IterateDone(last, env, at, g.maxContinuations);
  }

  // ---------------------------------------------------------------- exactly

  /** The work can go on in step and no error is pending. */
  predicate Clean(app: App) {
    Lockstep(app) && !app.hadError
  }

  /** A closed task, counted. */
  predicate ClosesExactly(app: App, later: App, done: bool) {
    DoneTasks(later.tasks) == DoneTasks(app.tasks) + Bit(done) && !later.hadError
  }

  lemma CloseExactly(app: App, start: App, to: TaskStatus, summary: Option<string>, phase: Phase)
    requires Lockstep(app) && app.active.Some? && SameWork(app, start)
    ensures ClosesExactly(app, Closed(start, to, summary), to.Done?)
    ensures ClosesExactly(app, Closed(start, to, summary).(phase := phase), to.Done?)
  {
    ClosedDone(start, to, summary);
  }

  lemma VerifyExactly(app: App, t: Turn)
    requires Lockstep(app) && app.active.Some?
    ensures var checking := Marked(app.(phase := Checking), Verifying);
            && ClosesExactly(app, Closed(checking, Done, t.summary).(phase := Idle), true)
            && ClosesExactly(app, Closed(checking, Failed, Some(t.reason)).(phase := Idle), false)
  {
    var checking := Marked(app.(phase := Checking), Verifying);
    MarkKept(app, app.(phase := Checking), Verifying);
    MarkedDone(app.(phase := Checking), Verifying);
    CloseExactly(checking, checking, Done, t.summary, Idle);
    CloseExactly(checking, checking, Failed, Some(t.reason), Idle);
  }

  /** The decision after a turn, by whether the turn verifies. */
  lemma ResolvedAsVerified(app: App, t: Turn, maxContinuations: nat, counts: (App, bool) -> bool)
    requires Current(app).Some? && t.starts && app.hadError == t.failed
    requires counts(Closed(app.(phase := Idle), Failed, Some("provider execution failed")), false)
    requires counts(Closed(app.(phase := Idle), Failed, Some("provider returned no assistant summary")), false)
    requires counts(Closed(app.(phase := Escalating), Blocked, Some("continuation limit reached")), false)
    requires counts(Closed(app.(phase := Escalating), Blocked, Some(t.reason)), false)
    requires var checking := Marked(app.(phase := Checking), Verifying);
             && counts(Closed(checking, Done, t.summary).(phase := Idle), true)
             && counts(Closed(checking, Failed, Some(t.reason)).(phase := Idle), false)
    requires !app.hadError ==> counts(app.(continuations := app.continuations + 1, phase := Executing), false)
    ensures counts(Resolve(app, t, maxContinuations).0, Verifies(t))
  {
  }

  lemma ResolvedExactly(app: App, t: Turn, maxContinuations: nat)
    requires Lockstep(app) && app.active.Some? && t.starts && app.hadError == t.failed
    ensures ClosesExactly(app, Resolve(app, t, maxContinuations).0, Verifies(t))
  {
    ActiveIsLast(app.tasks, app.active);
    CloseExactly(app, app.(phase := Idle), Failed, Some("provider execution failed"), Idle);
    CloseExactly(app, app.(phase := Idle), Failed, Some("provider returned no assistant summary"), Idle);
    CloseExactly(app, app.(phase := Escalating), Blocked, Some("continuation limit reached"), Idle);
    CloseExactly(app, app.(phase := Escalating), Blocked, Some(t.reason), Idle);
    VerifyExactly(app, t);
    ResolvedAsVerified(app, t, maxContinuations, (later: App, done: bool) => ClosesExactly(app, later, done));
  }

  lemma StreamedExactly(app: App, running: App, t: Turn, maxContinuations: nat)
    requires Lockstep(running) && running.active.Some? && !running.hadError && t.starts
    requires DoneTasks(running.tasks) == DoneTasks(app.tasks)
    ensures ClosesExactly(app, Resolve(running.(hadError := t.failed), t, maxContinuations).0, Verifies(t))
  {
    ResolvedExactly(running.(hadError := t.failed), t, maxContinuations);
  }

  lemma TurnExactly(app: App, t: Turn, maxContinuations: nat)
    requires Clean(app) && app.active.Some? && t.abort == NoAbort
    ensures ClosesExactly(app, PlayTurn(app, t, maxContinuations).0, Verifies(t))
  {
    var running := Marked(app.(phase := Executing), Running);
    MarkKept(app, app.(phase := Executing), Running);
    MarkedDone(app.(phase := Executing), Running);
    if t.starts {
      assert running.(hadError := running.hadError || t.failed) == running.(hadError := t.failed);
      StreamedExactly(app, running, t, maxContinuations);
    } else {
      ActiveIsLast(running.tasks, running.active);
      CloseExactly(running, running.(phase := Escalating), Blocked, Some("provider start failed: " + t.reason), Idle);
    }
  }

  lemma UnabortedNeverBreaks(app: App, t: Turn, maxContinuations: nat)
    requires t.abort == NoAbort
    ensures !PlayTurn(app, t, maxContinuations).1.Broken?
  {
  }

  predicate Counts(env: Env, app: App, k: nat, later: App, turn: nat) {
    Clean(later) && DoneTasks(later.tasks) + VerifiedTurns(env, k) == DoneTasks(app.tasks) + VerifiedTurns(env, turn)
  }

  lemma CountsNext(env: Env, app: App, k: nat, a: App, t: nat, later: App)
    requires Counts(env, app, k, a, t) && Lockstep(later) && ClosesExactly(a, later, Verifies(env(t)))
    ensures Counts(env, app, k, later, t + 1)
  {
  }

  ghost predicate NeverAborts(env: Env) {
    forall k: nat :: env(k).abort == NoAbort
  }

  lemma ExecuteExactly(app: App, env: Env, k: nat, maxContinuations: nat)
    requires Clean(app) && app.active.Some? && NeverAborts(env)
    ensures var run := Execute(app, env, k, maxContinuations);
            run.outcome.Some? && Counts(env, app, k, run.app, run.turn)
  {
    var open := (a: App, t: nat) => Counts(env, app, k, a, t) && a.active.Some?;
    var shut := (a: App, t: nat, next: Next) => Counts(env, app, k, a, t) && !next.Broken?;
    forall a, t: nat
      ensures TurnTakes(env, maxContinuations, open, shut, a, t)
    {
      if open(a, t) {
        TurnExactly(a, env(t), maxContinuations);
        TurnKeeps(a, env(t), maxContinuations);
        UnabortedNeverBreaks(a, env(t), maxContinuations);
        CountsNext(env, app, k, a, t, PlayTurn(a, env(t), maxContinuations).0);
      }
    }
    ExecuteRule(app, env, k, maxContinuations, open, shut);
  }

  lemma PickClean(app: App)
    requires Clean(app) && Pick(app).Some?
    ensures Clean(Pick(app).value) && Pick(app).value.active.Some?
    ensures DoneTasks(Pick(app).value.tasks) == DoneTasks(app.tasks)
  {
    PickKeeps(app);
    PickDone(app);
  }

  lemma IterateIs(app: App, env: Env, k: nat, maxContinuations: nat)
    requires env(k).abort == NoAbort
    ensures Pick(app).None? ==> Iterate(app, env, k, maxContinuations) == NothingReady(app.(phase := Idle))
    ensures Pick(app).Some? ==>
      var run := Execute(Pick(app).value, env, k, maxContinuations);
      run.outcome.Some? ==>
        Iterate(app, env, k, maxContinuations) == Executed(run.app, run.outcome.value, run.turn)
  {
  }

  lemma IterateExactly(app: App, env: Env, k: nat, maxContinuations: nat)
    requires Clean(app) && NeverAborts(env)
    ensures var i := Iterate(app, env, k, maxContinuations);
            && !i.ErrorOut?
            && (i.Executed? ==> Counts(env, app, k, i.app, i.turn))
            && (i.NothingReady? ==> i.app.tasks == app.tasks)
  {
    IterateIs(app, env, k, maxContinuations);
    if Pick(app).Some? {
      PickClean(app);
      ExecuteExactly(Pick(app).value, env, k, maxContinuations);
    }
  }

  /** If no hook and no artifact write fails, exactly the verified turns make tasks done. */
  lemma DoneExactlyIfVerified(app: App, env: Env, g: Guardrails)
    requires Clean(app) && NeverAborts(env)
    ensures var e := RunLoop(app, env, g);
            e.reason != ErrorReturn && DoneTasks(e.app.tasks) == DoneTasks(app.tasks) + VerifiedTurns(env, e.turn)
  {
    var step := Iterating(env, g.maxContinuations);
    var inv := (a: App, n: nat, t: nat) => Counts(env, app, 0, a, t);
    forall a, n: nat, t: nat | inv(a, n, t) && step(a, t).Executed?
      ensures inv(step(a, t).app, n + 1, step(a, t).turn)
    {
      IterateExactly(a, env, t, g.maxContinuations);
    }
    var last, at := LoopRule(step, g, app, 0, 0, 0, inv);
    var e := RunLoop(app, env, g);
    if e.reason in {NoReadyTodo, ErrorReturn} {
      IterateExactly(last, env, at, g.maxContinuations);
    }
  }
}
