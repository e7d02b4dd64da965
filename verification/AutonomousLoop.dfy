/**
 The autonomous loop on values: picking a task, playing provider turns until the task is
 settled, and the guardrails that stop it. What providers, verification and disk do in each
 turn is given from outside.
 Source: core/src/loop_runner.rs, core/src/task_engine.rs, core/src/app.rs.
 */
module AutonomousLoop {
  import opened Search
  import opened Wrappers
  import opened Backlog
  import AgentNaming

  datatype Phase = Idle | Planning | Executing | Checking | Escalating

  datatype App = App(
    tasks: seq<Task>, todos: seq<Todo>, active: Option<string>,
    hadError: bool, continuations: nat, phase: Phase)

  datatype Guardrails = Guardrails(maxIterations: nat, maxContinuations: nat, maxFailures: nat)

  // ---------------------------------------------------------------- tasks and todos

  function TaskIdOf(n: nat): string {
    "task-" + AgentNaming.Digits(n)
  }

  function FindTodo(todos: seq<Todo>, id: string): (r: Option<nat>)
    ensures r.Some? ==>
      r.value < |todos| && todos[r.value].id == id && forall j | 0 <= j < r.value :: todos[j].id != id
    ensures r.None? ==> forall j | 0 <= j < |todos| :: todos[j].id != id
  {
    FirstIndex(todos, (t: Todo) => t.id == id)
  }

  function TodoStatusOf(todos: seq<Todo>, id: string): Option<TodoStatus> {
    match FindTodo(todos, id) case None => None case Some(j) => Some(todos[j].status)
  }

  function FirstReadyTodo(todos: seq<Todo>): Option<nat> {
    FirstIndex(todos, (t: Todo) => t.status.TodoReady?)
  }

  /** The id of the first todo that is ready. */
  function NextReadyTodo(todos: seq<Todo>): (r: Option<string>)
    ensures r.Some? ==> exists j | 0 <= j < |todos| ::
      todos[j].status.TodoReady? && todos[j].id == r.value && forall i | 0 <= i < j :: !todos[i].status.TodoReady?
    ensures r.None? <==> forall j | 0 <= j < |todos| :: !todos[j].status.TodoReady?
  {
    match FirstReadyTodo(todos) case None => None case Some(j) => Some(todos[j].id)
  }

  /** Where the active task stands, if the active id names one. */
  function Current(app: App): Option<nat> {
    if app.active.None? then None else FindTask(app.tasks, app.active.value)
  }

  /** Open a task on the first todo with this id. */
  function Begin(app: App, todoId: string): Option<App> {
    match FindTodo(app.todos, todoId)
    case None => None
    case Some(j) => Some(Begun(app, j))
  }

  function Begun(app: App, j: nat): App
    requires j < |app.todos|
  {
    var id := TaskIdOf(|app.tasks| + 1);
    app.(tasks := app.tasks + [Task(id, app.todos[j].id, app.todos[j].title, Ready, None)],
         todos := app.todos[j := app.todos[j].(status := InProgress)],
         active := Some(id), hadError := false, continuations := 0)
  }

  function Marked(app: App, status: TaskStatus): App {
    match Current(app)
    case None => app
    case Some(i) => app.(tasks := app.tasks[i := app.tasks[i].(status := status)])
  }

  /** What closing a task does to its todo; a failed task only gives back a todo in progress. */
  function TodoAfter(to: TaskStatus, was: TodoStatus): TodoStatus {
    match to
    case Done => TodoDone
    case Blocked => TodoBlocked
    case Failed => if was == InProgress then TodoReady else was
    case Draft => was
    case Ready => was
    case Running => was
    case Verifying => was
  }

  /** Close the active task as done, failed or blocked. */
  function Closed(app: App, to: TaskStatus, summary: Option<string>): App {
    if app.active.None? then app
    else
      var freed := app.(active := None, hadError := false, continuations := 0);
      match FindTask(app.tasks, app.active.value)
      case None => freed
      case Some(i) =>
        var todos :=
          match FindTodo(app.todos, app.tasks[i].todoId)
          case None => app.todos
          case Some(j) => app.todos[j := app.todos[j].(status := TodoAfter(to, app.todos[j].status))];
        freed.(tasks := app.tasks[i := app.tasks[i].(status := to, summary := summary)], todos := todos)
  }

  // ---------------------------------------------------------------- one provider turn

  /** Where an error return leaves the loop: a failing state hook or artifact write. */
  datatype Abort = NoAbort | AtBegin | BeforeStart | AfterStartFailure | InStream | OnSave | AfterTurn

  /** What the outside does in one turn. */
  datatype Turn = Turn(
    abort: Abort,
    starts: bool,
    failed: bool,             // an error event, or the stream broke off
    summary: Option<string>,  // the last assistant text
    continues: bool,          // the summary asks to go on
    complete: bool,           // the summary is judged complete
    verified: bool,
    reason: string)

  type Env = nat -> Turn

  datatype Resolution = GoOn | Completed | TaskFailed(verification: bool) | Escalated | NoTask | SaveError

  function Saved(t: Turn, r: Resolution): Resolution {
    if t.abort == OnSave then SaveError else r
  }

  /** Decide about the active task after a turn. */
  function Resolve(app: App, t: Turn, maxContinuations: nat): (App, Resolution) {
    if Current(app).None? then (app.(phase := Idle), NoTask)
    else if app.hadError then
      (Closed(app.(phase := Idle), Failed, Some("provider execution failed")), Saved(t, TaskFailed(false)))
    else if t.summary.None? then
      (Closed(app.(phase := Idle), Failed, Some("provider returned no assistant summary")),
       Saved(t, TaskFailed(false)))
    else if t.continues then
      if app.continuations >= maxContinuations then
        (Closed(app.(phase := Escalating), Blocked, Some("continuation limit reached")), Saved(t, Escalated))
      else
        (app.(continuations := app.continuations + 1, phase := Executing), GoOn)
    else if t.complete then
      var checking := Marked(app.(phase := Checking), Verifying);
      if t.verified then (Closed(checking, Done, t.summary).(phase := Idle), Saved(t, Completed))
      else (Closed(checking, Failed, Some(t.reason)).(phase := Idle), Saved(t, TaskFailed(true)))
    else
      (Closed(app.(phase := Escalating), Blocked, Some(t.reason)), Saved(t, Escalated))
  }

  datatype Outcome = TaskCompleted | VerificationFailed | TaskEscalated

  /** After a turn: another one, an outcome, or an error return. */
  datatype Next = Again | Stop(outcome: Outcome) | Broken

  function AfterResolution(t: Turn, r: Resolution): Next {
    if r == SaveError || t.abort == AfterTurn then Broken
    else match r
      case GoOn => Again
      case Completed => Stop(TaskCompleted)
      case TaskFailed(verification) => if verification then Stop(VerificationFailed) else Stop(TaskCompleted)
      case Escalated => Stop(TaskEscalated)
      case NoTask => Stop(TaskCompleted)
      case SaveError => Broken
  }

  function StartFailed(app: App, t: Turn): App {
    if Current(app).Some? then
      Closed(app.(phase := Escalating), Blocked, Some("provider start failed: " + t.reason))
    else app.(phase := Idle)
  }

  function PlayTurn(app: App, t: Turn, maxContinuations: nat): (App, Next) {
    var running := Marked(app.(phase := Executing), Running);
    if t.abort == BeforeStart then (running, Broken)
    else if !t.starts then
      (StartFailed(running, t), if t.abort == AfterStartFailure then Broken else Stop(TaskEscalated))
    else
      var streamed := running.(hadError := running.hadError || t.failed);
      if t.abort == InStream then (streamed, Broken)
      else
        var (resolved, r) := Resolve(streamed, t, maxContinuations);
        (resolved, AfterResolution(t, r))
  }

  /** How many more times a task may be continued. */
  function Remaining(app: App, maxContinuations: nat): nat {
    if app.continuations < maxContinuations then maxContinuations - app.continuations else 0
  }

  /** A task asking to go on uses up one of its continuations. */
  lemma ContinuingUsesUp(app: App, t: Turn, maxContinuations: nat)
    ensures PlayTurn(app, t, maxContinuations).1 == Again ==>
      Remaining(PlayTurn(app, t, maxContinuations).0, maxContinuations) < Remaining(app, maxContinuations)
  {
  }

  /** A task's execution: its end state, its outcome (none after an error return), the next turn. */
  datatype Execution = Execution(app: App, outcome: Option<Outcome>, turn: nat)

  function Execute(app: App, env: Env, k: nat, maxContinuations: nat): Execution
    decreases Remaining(app, maxContinuations)
  {
    var (after, next) := PlayTurn(app, env(k), maxContinuations);
    match next
    case Again => ContinuingUsesUp(app, env(k), maxContinuations); Execute(after, env, k + 1, maxContinuations)
    case Stop(outcome) => Execution(after, Some(outcome), k + 1)
    case Broken => Execution(after, None, k + 1)
  }

  // ---------------------------------------------------------------- the loop

  datatype StopReason = MaxIterations | NoReadyTodo | MaxVerificationFailures | ErrorReturn

  datatype Ended = Ended(app: App, reason: StopReason, iterations: nat, failures: nat, turn: nat)

  /** Resume the active task or open one on the first ready todo; none if there is neither. */
  function Pick(app: App): Option<App> {
    if Current(app).Some? then Some(app)
    else match NextReadyTodo(app.todos)
      case None => None
      case Some(id) => Begin(app.(phase := Planning), id)
  }

  /** One iteration: nothing to do, an error return, or a task executed to an outcome. */
  datatype Iteration =
    | NothingReady(app: App)
    | ErrorOut(app: App, turn: nat)
    | Executed(app: App, outcome: Outcome, turn: nat)

  function Iterate(app: App, env: Env, k: nat, maxContinuations: nat): Iteration {
    var picked := Pick(app);
    if picked.None? then NothingReady(app.(phase := Idle))
    else if Current(app).None? && env(k).abort == AtBegin then ErrorOut(picked.value, k)
    else
      var run := Execute(picked.value, env, k, maxContinuations);
      if run.outcome.None? then ErrorOut(run.app, run.turn)
      else Executed(run.app, run.outcome.value, run.turn)
  }

  type Step = (App, nat) -> Iteration

  function Iterating(env: Env, maxContinuations: nat): Step {
    (app: App, k: nat) => Iterate(app, env, k, maxContinuations)
  }

  /** The loop around an iteration, from given counters. */
  function Loop(step: Step, g: Guardrails, app: App, k: nat, iterations: nat, failures: nat): Ended
    decreases g.maxIterations - iterations
  {
    if iterations >= g.maxIterations then
      Ended(app.(phase := Escalating), MaxIterations, iterations, failures, k)
    else
      match step(app, k)
      case NothingReady(after) => Ended(after, NoReadyTodo, iterations, failures, k)
      case ErrorOut(after, turn) => Ended(after, ErrorReturn, iterations, failures, turn)
      case Executed(after, outcome, turn) =>
        if outcome != VerificationFailed then Loop(step, g, after, turn, iterations + 1, failures)
        else if failures + 1 >= g.maxFailures then
          Ended(after.(phase := Escalating), MaxVerificationFailures, iterations + 1, failures + 1, turn)
        else Loop(step, g, after, turn, iterations + 1, failures + 1)
  }

  function RunLoop(app: App, env: Env, g: Guardrails): Ended {
    Loop(Iterating(env, g.maxContinuations), g, app, 0, 0, 0)
  }

  // ---------------------------------------------------------------- two rules

  /** A turn takes `open` to `shut`, or to `open` if it is to be followed by another. */
  predicate TurnTakes(env: Env, maxContinuations: nat, open: (App, nat) -> bool, shut: (App, nat, Next) -> bool,
      app: App, k: nat)
  {
    open(app, k) ==>
      var (later, next) := PlayTurn(app, env(k), maxContinuations);
      if next == Again then open(later, k + 1) else shut(later, k + 1, next)
  }

  /**
   A rule for one task's execution: if each turn does, then the execution takes `open` to `shut`.
   */
  lemma {:induction false} ExecuteRule(app: App, env: Env, k: nat, maxContinuations: nat,
      open: (App, nat) -> bool, shut: (App, nat, Next) -> bool)
    requires open(app, k)
    requires forall a, t: nat :: TurnTakes(env, maxContinuations, open, shut, a, t)
    ensures var run := Execute(app, env, k, maxContinuations);
            shut(run.app, run.turn, if run.outcome.Some? then Stop(run.outcome.value) else Broken)
    decreases Remaining(app, maxContinuations)
  {
    var (after, next) := PlayTurn(app, env(k), maxContinuations);
    assert TurnTakes(env, maxContinuations, open, shut, app, k);
    if next == Again {
      ContinuingUsesUp(app, env(k), maxContinuations);
      ExecuteRule(after, env, k + 1, maxContinuations, open, shut);
    }
  }

  /**
   A rule for the loop: what each executed iteration keeps, counting it, holds where the loop
   stops, or where the iteration started in which it stops.
   */
  lemma {:induction false} LoopRule(step: Step, g: Guardrails, app: App, k: nat, iterations: nat, failures: nat,
      inv: (App, nat, nat) -> bool) returns (last: App, at: nat)
    requires inv(app, iterations, k)
    requires forall a, n: nat, t: nat | inv(a, n, t) && step(a, t).Executed? :: inv(step(a, t).app, n + 1, step(a, t).turn)
    requires forall a, n: nat, t: nat, phase | inv(a, n, t) :: inv(a.(phase := phase), n, t)
    ensures var e := Loop(step, g, app, k, iterations, failures);
            && (e.reason in {MaxIterations, MaxVerificationFailures} ==> inv(e.app, e.iterations, e.turn))
            && (e.reason == NoReadyTodo ==>
                  inv(last, e.iterations, at) && step(last, at) == NothingReady(e.app) && e.turn == at)
            && (e.reason == ErrorReturn ==> inv(last, e.iterations, at) && step(last, at) == ErrorOut(e.app, e.turn))
    decreases g.maxIterations - iterations
  {
    last, at := app, k;
    if iterations < g.maxIterations && step(app, k).Executed? {
      var i := step(app, k);
      if i.outcome != VerificationFailed {
        last, at := LoopRule(step, g, i.app, i.turn, iterations + 1, failures, inv);
      } else if failures + 1 < g.maxFailures {
        last, at := LoopRule(step, g, i.app, i.turn, iterations + 1, failures + 1, inv);
      }
    }
  }

  // ---------------------------------------------------------------- bounds

  function Max(x: nat, y: nat): nat {
    if x < y then y else x
  }

  lemma {:induction false} ExecuteTurns(app: App, env: Env, k: nat, maxContinuations: nat)
    ensures k < Execute(app, env, k, maxContinuations).turn <= k + Remaining(app, maxContinuations) + 1
    decreases Remaining(app, maxContinuations)
  {
    var (after, next) := PlayTurn(app, env(k), maxContinuations);
    if next == Again {
      ContinuingUsesUp(app, env(k), maxContinuations);
      ExecuteTurns(after, env, k + 1, maxContinuations);
    }
  }

  /** The counters' bounds, for any iteration whatever. */
  lemma {:induction false} LoopBounds(step: Step, g: Guardrails, app: App, k: nat, iterations: nat, failures: nat)
    requires failures <= iterations <= g.maxIterations && failures < Max(1, g.maxFailures)
    ensures var e := Loop(step, g, app, k, iterations, failures);
            && iterations <= e.iterations <= g.maxIterations
            && e.failures <= e.iterations
            && e.failures <= Max(1, g.maxFailures)
            && (e.failures == Max(1, g.maxFailures) <==> e.reason == MaxVerificationFailures)
            && (e.reason == MaxIterations ==> e.iterations == g.maxIterations)
            && (e.reason in {NoReadyTodo, ErrorReturn} ==> e.iterations < g.maxIterations)
    decreases g.maxIterations - iterations
  {
    if iterations < g.maxIterations && step(app, k).Executed? {
      var after, turn := step(app, k).app, step(app, k).turn;
      if step(app, k).outcome != VerificationFailed {
        LoopBounds(step, g, after, turn, iterations + 1, failures);
      } else if failures + 1 < g.maxFailures {
        LoopBounds(step, g, after, turn, iterations + 1, failures + 1);
      }
    }
  }

  /** The guardrails hold, whatever providers and verification do, from any state. */
  lemma GuardrailsHold(app: App, env: Env, g: Guardrails)
    ensures var e := RunLoop(app, env, g);
            && e.iterations <= g.maxIterations
            && e.failures <= Max(1, g.maxFailures)
            && e.failures <= e.iterations
            && (e.reason == MaxVerificationFailures <==> e.failures == Max(1, g.maxFailures))
  {
    LoopBounds(Iterating(env, g.maxContinuations), g, app, 0, 0, 0);
  }

  /**
   Reaching the iteration limit is not what stops the loop when the last iteration is also the
   verification failure that exhausts the other guardrail. Otherwise the two coincide.
   */
  lemma MaxIterationsExactly(app: App, env: Env, g: Guardrails)
    ensures var e := RunLoop(app, env, g);
            e.reason == MaxIterations <==>
              e.iterations == g.maxIterations && e.failures < Max(1, g.maxFailures)
  {
    LoopBounds(Iterating(env, g.maxContinuations), g, app, 0, 0, 0);
  }

  /** The case in which the limit is reached but the loop stops for the other reason. */
  lemma BothLimitsAtOnce()
    ensures var app := App([], [Todo("todo-1", "t", 0, TodoReady)], None, false, 0, Idle);
            var env: Env := (k: nat) => Turn(NoAbort, true, false, Some("done"), false, true, false, "red");
            var e := RunLoop(app, env, Guardrails(1, 3, 1));
            e.iterations == 1 && e.reason == MaxVerificationFailures
  {
    var app := App([], [Todo("todo-1", "t", 0, TodoReady)], None, false, 0, Idle);
    var env: Env := (k: nat) => Turn(NoAbort, true, false, Some("done"), false, true, false, "red");
    assert app.todos[..0] == [];
    assert NextReadyTodo(app.todos) == Some("todo-1");
    assert FindTodo(app.todos, "todo-1") == Some(0);
    var begun := Begun(app.(phase := Planning), 0);
    assert Pick(app) == Some(begun);
    FindOnly(begun.tasks[0]);
    var running := Marked(begun.(phase := Executing), Running);
    FindOnly(running.tasks[0]);
    var checking := Marked(running.(phase := Checking), Verifying);
    FindOnly(checking.tasks[0]);
    assert PlayTurn(begun, env(0), 3).1 == Stop(VerificationFailed);
  }

  lemma FindOnly(task: Task)
    ensures FindTask([task], task.id) == Some(0)
  {
  }

  ghost predicate TurnsAtMost(step: Step, c: nat) {
    forall app, k: nat :: step(app, k).NothingReady? || step(app, k).turn <= k + c
  }

  lemma {:induction false} LoopTurns(step: Step, g: Guardrails, app: App, k: nat, iterations: nat, failures: nat, c: nat)
    requires TurnsAtMost(step, c)
    ensures var e := Loop(step, g, app, k, iterations, failures);
            e.iterations >= iterations
            && e.turn <= k + (e.iterations - iterations + if e.reason == ErrorReturn then 1 else 0) * c
    decreases g.maxIterations - iterations
  {
    if iterations < g.maxIterations && step(app, k).Executed? {
      var after, turn := step(app, k).app, step(app, k).turn;
      var e := Loop(step, g, app, k, iterations, failures);
      var spent := e.iterations - iterations + if e.reason == ErrorReturn then 1 else 0;
      if step(app, k).outcome != VerificationFailed {
        LoopTurns(step, g, after, turn, iterations + 1, failures, c);
        OneMoreIteration(spent, c);
      } else if failures + 1 < g.maxFailures {
        LoopTurns(step, g, after, turn, iterations + 1, failures + 1, c);
        OneMoreIteration(spent, c);
      }
    }
  }

  lemma OneMoreIteration(x: int, c: nat)
    ensures c + (x - 1) * c == x * c
  {
  }

  lemma IterateTurns(app: App, env: Env, k: nat, maxContinuations: nat)
    ensures var i := Iterate(app, env, k, maxContinuations);
            i.NothingReady? || i.turn <= k + maxContinuations + 1
  {
    if Pick(app).Some? {
      ExecuteTurns(Pick(app).value, env, k, maxContinuations);
    }
  }

  /**
   The provider is started at most maxContinuations + 1 times an iteration; the iteration an
   error return cuts short is not counted.
   */
  lemma TurnsAreBounded(app: App, env: Env, g: Guardrails)
    ensures var e := RunLoop(app, env, g);
            e.turn <= (e.iterations + if e.reason == ErrorReturn then 1 else 0) * (g.maxContinuations + 1)
  {
    var step := Iterating(env, g.maxContinuations);
    forall a, k: nat
      ensures step(a, k).NothingReady? || step(a, k).turn <= k + (g.maxContinuations + 1)
    {
      IterateTurns(a, env, k, g.maxContinuations);
    }
    LoopTurns(step, g, app, 0, 0, 0, g.maxContinuations + 1);
  }
}
