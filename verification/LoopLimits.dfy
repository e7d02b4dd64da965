/**
 For which guardrails reaching the iteration limit always means stopping because of it.
 Source: core/src/loop_runner.rs.
 */
module LoopLimits {
  import opened Wrappers
  import opened Backlog
  import opened AutonomousLoop
  import opened TaskLockstep

  /** A turn in which the provider fails, or in which verification does. */
  function FailingTurn(verification: bool): Turn {
    Turn(NoAbort, true, !verification, Some("summary"), false, true, false, "not verified")
  }

  /** In step, with no task in flight and a todo to begin. */
  predicate ReadyToBegin(app: App) {
    Lockstep(app) && app.active.None? && exists j :: 0 <= j < |app.todos| && app.todos[j].status.TodoReady?
  }

  /** A task that fails gives its todo back. */
  lemma FailingGivesBack(app: App, start: App, reason: string)
    requires Lockstep(app) && app.active.Some? && SameWork(app, start)
    ensures ReadyToBegin(Closed(start, Failed, Some(reason)))
  {
    CloseKeeps(start, Failed, Some(reason));
    ActiveIsLast(start.tasks, start.active);
    var j := InFlightTodo(start);
    assert Closed(start, Failed, Some(reason)).todos[j].status.TodoReady?;
  }

  lemma ReadyAtPhase(app: App, phase: Phase)
    requires ReadyToBegin(app)
    ensures ReadyToBegin(app.(phase := phase))
  {
  }

  /** How such a turn is resolved. */
  lemma FailingResolution(app: App, verification: bool, maxContinuations: nat)
    requires Lockstep(app) && app.active.Some? && app.hadError == !verification
    ensures var (later, r) := Resolve(app, FailingTurn(verification), maxContinuations);
      ReadyToBegin(later) && r == TaskFailed(verification)
  {
    ActiveIsLast(app.tasks, app.active);
    if verification {
      var checking := Marked(app.(phase := Checking), Verifying);
      MarkKept(app, app.(phase := Checking), Verifying);
      FailingGivesBack(checking, checking, "not verified");
      ReadyAtPhase(Closed(checking, Failed, Some("not verified")), Idle);
    } else {
      FailingGivesBack(app, app.(phase := Idle), "provider execution failed");
    }
  }

  lemma FailingPlay(app: App, verification: bool, maxContinuations: nat)
    requires Lockstep(app) && app.active.Some? && !app.hadError
    ensures var (later, next) := PlayTurn(app, FailingTurn(verification), maxContinuations);
      ReadyToBegin(later) && next == Stop(if verification then VerificationFailed else TaskCompleted)
  {
    var running := Marked(app.(phase := Executing), Running);
    MarkKept(app, app.(phase := Executing), Running);
    PlayIsResolve(app, FailingTurn(verification), maxContinuations);
    FailingResolution(running.(hadError := !verification), verification, maxContinuations);
  }

  /** A turn that starts and is not aborted is what is decided about it. */
  lemma PlayIsResolve(app: App, t: Turn, maxContinuations: nat)
    requires t.starts && t.abort == NoAbort && !app.hadError
    ensures var running := Marked(app.(phase := Executing), Running);
      var (resolved, r) := Resolve(running.(hadError := t.failed), t, maxContinuations);
      PlayTurn(app, t, maxContinuations) == (resolved, AfterResolution(t, r))
  {
  }

  /** One iteration of failing. */
  lemma FailingIteration(app: App, env: Env, k: nat, maxContinuations: nat, verification: bool)
    requires ReadyToBegin(app) && env(k) == FailingTurn(verification)
    ensures var i := Iterate(app, env, k, maxContinuations);
      && i.Executed? && ReadyToBegin(i.app) && i.turn == k + 1
      && (i.outcome == VerificationFailed <==> verification)
  {
    PickKeeps(app);
    var picked := Pick(app).value;
    FailingPlay(picked, verification, maxContinuations);
  }

  /** Provider failures as long as they do no harm, then verification failures up to the limit. */
  function Failing(g: Guardrails): Env {
    (k: nat) => FailingTurn(k + Max(1, g.maxFailures) >= g.maxIterations)
  }

  /** How many of the first n turns of that course fail verification. */
  function Verifications(g: Guardrails, n: nat): nat {
    var f := n + Max(1, g.maxFailures) - g.maxIterations;
    if f < 0 then 0 else f
  }

  /** One iteration to the next, with a verification failure in the last ones only. */
  predicate FailsOnce(g: Guardrails, step: Step, ready: App -> bool, app: App, k: nat) {
    ready(app) ==>
      var i := step(app, k);
      && i.Executed? && ready(i.app) && i.turn == k + 1
      && (i.outcome == VerificationFailed <==> k + Max(1, g.maxFailures) >= g.maxIterations)
  }

  /** Failing on and on exhausts the failures in the last iteration allowed. */
  lemma {:induction false} FailingLoop(g: Guardrails, step: Step, ready: App -> bool, app: App, k: nat)
    requires forall a, n: nat :: FailsOnce(g, step, ready, a, n)
    requires ready(app) && k < g.maxIterations && Max(1, g.maxFailures) <= g.maxIterations
    ensures var e := Loop(step, g, app, k, k, Verifications(g, k));
      e.reason == MaxVerificationFailures && e.iterations == g.maxIterations
    decreases g.maxIterations - k
  {
    assert FailsOnce(g, step, ready, app, k);
    if k + 1 < g.maxIterations {
      FailingLoop(g, step, ready, step(app, k).app, k + 1);
    }
  }

  /** Reaching the iteration limit is the same as stopping because of it. */
  ghost predicate LimitIsTheReason(g: Guardrails) {
    forall app: App, env: Env ::
      RunLoop(app, env, g).reason == MaxIterations <==> RunLoop(app, env, g).iterations == g.maxIterations
  }

  const ONE_TODO := App([], [Todo("todo-1", "t", 0, TodoReady)], None, false, 0, Idle)

  lemma FailingStep(g: Guardrails, app: App, k: nat)
    ensures FailsOnce(g, Iterating(Failing(g), g.maxContinuations), a => ReadyToBegin(a), app, k)
  {
    if ReadyToBegin(app) {
      FailingIteration(app, Failing(g), k, g.maxContinuations, k + Max(1, g.maxFailures) >= g.maxIterations);
    }
  }

  lemma OneTodoIsReady()
    ensures ReadyToBegin(ONE_TODO)
  {
    FreshIsInStep(ONE_TODO);
    assert ONE_TODO.todos[0].status.TodoReady?;
  }

  /** A run that reaches the limit and stops for the failures. */
  lemma FailingRun(g: Guardrails)
    requires Max(1, g.maxFailures) <= g.maxIterations
    ensures var e := RunLoop(ONE_TODO, Failing(g), g);
      e.reason == MaxVerificationFailures && e.iterations == g.maxIterations
  {
    var step := Iterating(Failing(g), g.maxContinuations);
    var ready := (a: App) => ReadyToBegin(a);
    forall app, k: nat
      ensures FailsOnce(g, step, ready, app, k)
    {
      FailingStep(g, app, k);
    }
    OneTodoIsReady();
    FailingLoop(g, step, ready, ONE_TODO, 0);
  }

  /** It is so exactly for guardrails whose iterations run out before their failures can. */
  lemma LimitIsTheReasonExactly(g: Guardrails)
    ensures LimitIsTheReason(g) <==> g.maxIterations < Max(1, g.maxFailures)
  {
    if g.maxIterations < Max(1, g.maxFailures) {
      forall app: App, env: Env
        ensures RunLoop(app, env, g).reason == MaxIterations <==> RunLoop(app, env, g).iterations == g.maxIterations
      {
        GuardrailsHold(app, env, g);
        MaxIterationsExactly(app, env, g);
      }
    } else {
      FailingRun(g);
    }
  }
}
