/**
 What the autonomous loop counts, and what each turn leaves: the task's record, its todo, the
 phase and what the loop does next.
 Source: core/src/loop_runner.rs, core/src/task_engine.rs, core/src/app.rs.
 */
module LoopEffects {
  import opened Wrappers
  import opened Backlog
  import opened AutonomousLoop
  import opened TaskLockstep
  import AgentNaming

  // ---------------------------------------------------------------- counting

  /** The first n iterations from a state, one after the other, as long as each is executed. */
  function Course(step: Step, app: App, k: nat, n: nat): seq<Iteration>
    decreases n
  {
    if n == 0 then []
    else
      var i := step(app, k);
      [i] + if i.Executed? then Course(step, i.app, i.turn, n - 1) else []
  }

  /** How many of them failed verification. */
  function Failures(course: seq<Iteration>): nat {
    if course == [] then 0
    else Failures(course[1..]) + if course[0].Executed? && course[0].outcome == VerificationFailed then 1 else 0
  }

  /** The loop's result tells its course: that many executed iterations, and that many of them failed. */
  lemma {:induction false} LoopCounts(step: Step, g: Guardrails, app: App, k: nat, iterations: nat, failures: nat)
    ensures var e := Loop(step, g, app, k, iterations, failures);
      && e.iterations >= iterations
      && var course := Course(step, app, k, e.iterations - iterations);
         && |course| == e.iterations - iterations
         && (forall j | 0 <= j < |course| :: course[j].Executed?)
         && e.failures == failures + Failures(course)
    decreases g.maxIterations - iterations
  {
    if iterations < g.maxIterations && step(app, k).Executed? {
      var i := step(app, k);
      var f := failures + if i.outcome == VerificationFailed then 1 else 0;
      var e := Loop(step, g, app, k, iterations, failures);
      if i.outcome == VerificationFailed && f >= g.maxFailures {
        assert Course(step, app, k, 1) == [i] + [];
      } else {
        LoopCounts(step, g, i.app, i.turn, iterations + 1, f);
        var rest := Course(step, i.app, i.turn, e.iterations - iterations - 1);
        assert Course(step, app, k, e.iterations - iterations) == [i] + rest;
        assert ([i] + rest)[1..] == rest;
      }
    }
  }

  /**
   Verification failures are never forgotten: the number reported is that of the iterations that
   failed verification, and the loop stops for them exactly when it has reached its guardrail.
   */
  lemma FailuresAreCounted(app: App, env: Env, g: Guardrails)
    ensures var e := RunLoop(app, env, g);
      var course := Course(Iterating(env, g.maxContinuations), app, 0, e.iterations);
      && |course| == e.iterations && (forall j | 0 <= j < |course| :: course[j].Executed?)
      && e.failures == Failures(course)
      && (e.reason == MaxVerificationFailures <==> Failures(course) == Max(1, g.maxFailures))
  {
    LoopCounts(Iterating(env, g.maxContinuations), g, app, 0, 0, 0);
    GuardrailsHold(app, env, g);
  }

  /** Where n executed iterations lead, and the number of the turn that comes next. */
  function Reached(step: Step, app: App, k: nat, n: nat): (App, nat)
    decreases n
  {
    var i := step(app, k);
    if n == 0 || !i.Executed? then (app, k) else Reached(step, i.app, i.turn, n - 1)
  }

  /** How a loop ends at a place: for want of work, by an error return, or at a guardrail. */
  predicate EndsAt(step: Step, app: App, k: nat, e: Ended) {
    match e.reason
    case NoReadyTodo => step(app, k) == NothingReady(e.app) && e.turn == k
    case ErrorReturn => step(app, k) == ErrorOut(e.app, e.turn)
    case MaxIterations => e.app == app.(phase := Escalating) && e.turn == k
    case MaxVerificationFailures => e.app == app.(phase := Escalating) && e.turn == k
  }

  /** The loop ends where its counted iterations lead. */
  lemma {:induction false} LoopEndsWhereItLeads(step: Step, g: Guardrails, app: App, k: nat, iterations: nat, failures: nat)
    ensures var e := Loop(step, g, app, k, iterations, failures);
      && e.iterations >= iterations
      && var (at, turn) := Reached(step, app, k, e.iterations - iterations);
         EndsAt(step, at, turn, e)
    decreases g.maxIterations - iterations
  {
    if iterations < g.maxIterations && step(app, k).Executed? {
      var i := step(app, k);
      var f := failures + if i.outcome == VerificationFailed then 1 else 0;
      if i.outcome == VerificationFailed && f >= g.maxFailures {
        assert Reached(step, i.app, i.turn, 0) == (i.app, i.turn);
      } else {
        LoopEndsWhereItLeads(step, g, i.app, i.turn, iterations + 1, f);
      }
    }
  }

  // ---------------------------------------------------------------- the turns of one task

  /** Where n turns lead, one after the other. */
  function Played(app: App, env: Env, k: nat, n: nat, maxContinuations: nat): App
    decreases n
  {
    if n == 0 then app else Played(PlayTurn(app, env(k), maxContinuations).0, env, k + 1, n - 1, maxContinuations)
  }

  /** What each of them says about going on. */
  function Says(app: App, env: Env, k: nat, n: nat, maxContinuations: nat): (r: seq<Next>)
    ensures |r| == n
    decreases n
  {
    if n == 0 then []
    else
      var (after, next) := PlayTurn(app, env(k), maxContinuations);
      [next] + Says(after, env, k + 1, n - 1, maxContinuations)
  }

  /** Every turn but the last asks for another, and the last one settles the outcome. */
  predicate Settles(said: seq<Next>, outcome: Option<Outcome>) {
    && said != []
    && (forall j | 0 <= j < |said| - 1 :: said[j] == Again)
    && said[|said| - 1] == if outcome.Some? then Stop(outcome.value) else Broken
  }

  /** An execution is what n turns make of it. */
  predicate MadeOf(e: Execution, app: App, env: Env, k: nat, n: nat, maxContinuations: nat) {
    && e.turn == k + n
    && e.app == Played(app, env, k, n, maxContinuations)
    && Settles(Says(app, env, k, n, maxContinuations), e.outcome)
  }

  lemma MadeOfOneMore(e: Execution, app: App, env: Env, k: nat, n: nat, maxContinuations: nat, after: App)
    requires PlayTurn(app, env(k), maxContinuations) == (after, Again)
    requires MadeOf(e, after, env, k + 1, n, maxContinuations)
    ensures MadeOf(e, app, env, k, n + 1, maxContinuations)
  {
    var said := Says(after, env, k + 1, n, maxContinuations);
    assert Says(app, env, k, n + 1, maxContinuations) == [Again] + said;
    assert Played(app, env, k, n + 1, maxContinuations) == Played(after, env, k + 1, n, maxContinuations);
  }

  lemma MadeOfOne(app: App, env: Env, k: nat, maxContinuations: nat, after: App, next: Next)
    requires PlayTurn(app, env(k), maxContinuations) == (after, next) && next != Again
    ensures MadeOf(Execution(after, if next.Stop? then Some(next.outcome) else None, k + 1), app, env, k, 1, maxContinuations)
  {
    assert Played(after, env, k + 1, 0, maxContinuations) == after;
    assert Says(after, env, k + 1, 0, maxContinuations) == [];
  }

  /** A task is executed turn by turn until one settles it. */
  lemma {:induction false} ExecutionIsItsTurns(app: App, env: Env, k: nat, maxContinuations: nat) returns (n: nat)
    ensures MadeOf(Execute(app, env, k, maxContinuations), app, env, k, n, maxContinuations)
    decreases Remaining(app, maxContinuations)
  {
    var (after, next) := PlayTurn(app, env(k), maxContinuations);
    if next == Again {
      ContinuingUsesUp(app, env(k), maxContinuations);
      n := ExecutionIsItsTurns(after, env, k + 1, maxContinuations);
      MadeOfOneMore(Execute(after, env, k + 1, maxContinuations), app, env, k, n, maxContinuations, after);
      n := n + 1;
    } else {
      n := 1;
      MadeOfOne(app, env, k, maxContinuations, after, next);
    }
  }

  /** A loop that stops at a guardrail says so, and one without work is idle. */
  lemma {:induction false} PhaseAtEnd(step: Step, g: Guardrails, app: App, k: nat, iterations: nat, failures: nat)
    requires forall a, n: nat :: step(a, n).NothingReady? ==> step(a, n).app.phase == Idle
    ensures var e := Loop(step, g, app, k, iterations, failures);
      && (e.reason in {MaxIterations, MaxVerificationFailures} ==> e.app.phase == Escalating)
      && (e.reason == NoReadyTodo ==> e.app.phase == Idle)
    decreases g.maxIterations - iterations
  {
    if iterations < g.maxIterations && step(app, k).Executed? {
      var i := step(app, k);
      if i.outcome != VerificationFailed {
        PhaseAtEnd(step, g, i.app, i.turn, iterations + 1, failures);
      } else if failures + 1 < g.maxFailures {
        PhaseAtEnd(step, g, i.app, i.turn, iterations + 1, failures + 1);
      }
    }
  }

  lemma IdleWithoutWork(app: App, env: Env, k: nat, maxContinuations: nat)
    ensures var i := Iterate(app, env, k, maxContinuations); i.NothingReady? ==> i.app.phase == Idle
  {
  }

  lemma LoopEndsInPhase(app: App, env: Env, g: Guardrails)
    ensures var e := RunLoop(app, env, g);
      && (e.reason in {MaxIterations, MaxVerificationFailures} ==> e.app.phase == Escalating)
      && (e.reason == NoReadyTodo ==> e.app.phase == Idle)
  {
    var step := Iterating(env, g.maxContinuations);
    forall a, n: nat
      ensures step(a, n).NothingReady? ==> step(a, n).app.phase == Idle
    {
      IdleWithoutWork(a, env, n, g.maxContinuations);
    }
    PhaseAtEnd(step, g, app, 0, 0, 0);
  }

  // ---------------------------------------------------------------- beginning a task

  /** With no task in flight the loop begins on the first ready todo, and records what it is about. */
  lemma PickTakesFirstReady(app: App, j: nat)
    requires Lockstep(app) && app.active.None? && j < |app.todos| && app.todos[j].status.TodoReady?
    requires forall i | 0 <= i < j :: !app.todos[i].status.TodoReady?
    ensures var id := "task-" + AgentNaming.Digits(|app.tasks| + 1);
      Pick(app) == Some(App(
        app.tasks + [Task(id, app.todos[j].id, app.todos[j].title, Ready, None)],
        app.todos[j := app.todos[j].(status := InProgress)],
        Some(id), false, 0, Planning))
  {
    var r := FirstReadyTodo(app.todos);
    assert r.Some?;
    assert !(r.value < j) && !(j < r.value);
    TodoIs(app.todos, j);
  }

  // ---------------------------------------------------------------- one turn

  /** What is on record of the task in flight, which is the last one. */
  predicate Records(app: App, later: App, status: TaskStatus, summary: Option<string>) {
    && |later.tasks| == |app.tasks| > 0
    && var n := |app.tasks| - 1;
       later.tasks[n] == app.tasks[n].(status := status, summary := summary)
       && forall i | 0 <= i < n :: later.tasks[i] == app.tasks[i]
  }

  /** The task is closed: its record, its todo's status, no active task, nothing carried over. */
  predicate ClosedAs(app: App, later: App, status: TaskStatus, summary: Option<string>, todo: TodoStatus) {
    && Records(app, later, status, summary)
    && TodoStatusOf(later.todos, app.tasks[|app.tasks| - 1].todoId) == Some(todo)
    && later.active == None && !later.hadError && later.continuations == 0
  }

  /** The task is still in flight. */
  predicate StillRunning(app: App, later: App) {
    && app.tasks != []
    && Records(app, later, Running, app.tasks[|app.tasks| - 1].summary)
    && later.todos == app.todos && later.active == app.active
  }

  lemma CloseRecords(app: App, start: App, to: TaskStatus, summary: Option<string>)
    requires Lockstep(app) && app.active.Some? && (to == Done || to == Failed || to == Blocked)
    requires start.todos == app.todos && start.active == app.active && |start.tasks| == |app.tasks|
    requires Lockstep(start) && forall i | 0 <= i < |app.tasks| ::
      start.tasks[i].(status := Ready) == app.tasks[i].(status := Ready)
      && (i < |app.tasks| - 1 ==> start.tasks[i] == app.tasks[i])
    ensures ClosedAs(app, Closed(start, to, summary), to, summary,
      if to == Done then TodoDone else if to == Blocked then TodoBlocked else TodoReady)
  {
    ActiveIsLast(start.tasks, start.active);
    var j := InFlightTodo(start);
    TodoChange(start.todos, j, TodoAfter(to, InProgress), start.todos[j].id);
  }

  lemma MarkRecords(app: App, start: App, status: TaskStatus)
    requires Lockstep(app) && app.active.Some? && SameWork(app, start) && Live(status)
    ensures var marked := Marked(start, status);
      && Lockstep(marked) && marked.active == app.active && marked.todos == app.todos
      && |marked.tasks| == |app.tasks|
      && (forall i | 0 <= i < |app.tasks| - 1 :: marked.tasks[i] == app.tasks[i])
      && marked.tasks[|app.tasks| - 1] == app.tasks[|app.tasks| - 1].(status := status)
  {
    MarkKept(app, start, status);
    ActiveIsLast(app.tasks, app.active);
  }

  /** What is decided about the task after a turn that ran, row by row of the decision. */
  lemma ResolveDecides(app: App, t: Turn, maxContinuations: nat)
    requires Lockstep(app) && app.active.Some?
    ensures var (later, r) := Resolve(app, t, maxContinuations);
      if app.hadError then
        ClosedAs(app, later, Failed, Some("provider execution failed"), TodoReady)
        && later.phase == Idle && r == Saved(t, TaskFailed(false))
      else if t.summary == None then
        ClosedAs(app, later, Failed, Some("provider returned no assistant summary"), TodoReady)
        && later.phase == Idle && r == Saved(t, TaskFailed(false))
      else if t.continues && app.continuations < maxContinuations then
        later == app.(continuations := app.continuations + 1, phase := Executing) && r == GoOn
      else if t.continues then
        ClosedAs(app, later, Blocked, Some("continuation limit reached"), TodoBlocked)
        && later.phase == Escalating && r == Saved(t, Escalated)
      else if !t.complete then
        ClosedAs(app, later, Blocked, Some(t.reason), TodoBlocked)
        && later.phase == Escalating && r == Saved(t, Escalated)
      else if t.verified then
        ClosedAs(app, later, Done, t.summary, TodoDone) && later.phase == Idle && r == Saved(t, Completed)
      else
        ClosedAs(app, later, Failed, Some(t.reason), TodoReady)
        && later.phase == Idle && r == Saved(t, TaskFailed(true))
  {
    ActiveIsLast(app.tasks, app.active);
    if app.hadError {
      CloseRecords(app, app.(phase := Idle), Failed, Some("provider execution failed"));
    } else if t.summary == None {
      CloseRecords(app, app.(phase := Idle), Failed, Some("provider returned no assistant summary"));
    } else if t.continues {
      CloseRecords(app, app.(phase := Escalating), Blocked, Some("continuation limit reached"));
    } else if !t.complete {
      CloseRecords(app, app.(phase := Escalating), Blocked, Some(t.reason));
    } else {
      VerificationDecides(app, t);
    }
  }

  lemma VerificationDecides(app: App, t: Turn)
    requires Lockstep(app) && app.active.Some?
    ensures var checking := Marked(app.(phase := Checking), Verifying);
      && ClosedAs(app, Closed(checking, Done, t.summary).(phase := Idle), Done, t.summary, TodoDone)
      && ClosedAs(app, Closed(checking, Failed, Some(t.reason)).(phase := Idle), Failed, Some(t.reason), TodoReady)
  {
    var checking := Marked(app.(phase := Checking), Verifying);
    MarkRecords(app, app.(phase := Checking), Verifying);
    CloseRecords(app, checking, Done, t.summary);
    CloseRecords(app, checking, Failed, Some(t.reason));
  }

  /** A failing artifact write turns any decision but going on into an error return. */
  lemma SavingFails(t: Turn, r: Resolution)
    ensures Saved(t, r) == SaveError <==> t.abort == OnSave || r == SaveError
    ensures t.abort != OnSave ==> Saved(t, r) == r
  {
  }

  /** What the loop does after a decision. */
  lemma AfterDecision(t: Turn, r: Resolution)
    ensures AfterResolution(t, r) == Broken <==> r == SaveError || t.abort == AfterTurn
    ensures t.abort != AfterTurn ==>
      && (AfterResolution(t, r) == Again <==> r == GoOn)
      && (AfterResolution(t, r) == Stop(VerificationFailed) <==> r == TaskFailed(true))
      && (AfterResolution(t, r) == Stop(TaskEscalated) <==> r == Escalated)
      && (AfterResolution(t, r) == Stop(TaskCompleted) <==> r in {Completed, TaskFailed(false), NoTask})
  {
  }

  /** Before the decision: the task runs; the provider that does not start blocks it; hooks may end the loop. */
  lemma TurnRuns(app: App, t: Turn, maxContinuations: nat)
    requires Lockstep(app) && app.active.Some?
    ensures var (later, next) := PlayTurn(app, t, maxContinuations);
      && (t.abort == BeforeStart ==> StillRunning(app, later) && later.phase == Executing && next == Broken)
      && (t.abort != BeforeStart && !t.starts ==>
            && ClosedAs(app, later, Blocked, Some("provider start failed: " + t.reason), TodoBlocked)
            && later.phase == Escalating
            && next == if t.abort == AfterStartFailure then Broken else Stop(TaskEscalated))
      && (t.abort == InStream && t.starts ==>
            StillRunning(app, later) && later.hadError == (app.hadError || t.failed) && next == Broken)
  {
    var running := Marked(app.(phase := Executing), Running);
    MarkRecords(app, app.(phase := Executing), Running);
    assert running.tasks[|app.tasks| - 1].summary == app.tasks[|app.tasks| - 1].summary;
    if t.abort != BeforeStart && !t.starts {
      ActiveIsLast(running.tasks, running.active);
      CloseRecords(app, running.(phase := Escalating), Blocked, Some("provider start failed: " + t.reason));
    }
  }

  /** And then the decision is taken on the running task, with the error flag raised by a failed stream. */
  lemma TurnDecides(app: App, t: Turn, maxContinuations: nat)
    requires t.starts && t.abort != BeforeStart && t.abort != InStream
    ensures var running := Marked(app.(phase := Executing), Running);
      var (later, r) := Resolve(running.(hadError := app.hadError || t.failed), t, maxContinuations);
      PlayTurn(app, t, maxContinuations) == (later, AfterResolution(t, r))
  {
  }
}
