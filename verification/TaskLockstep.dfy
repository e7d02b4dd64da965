/**
 Tasks and todos move in step through every run of the autonomous loop: at most one task is in
 flight, it is the active one, and its todo is the only one in progress.
 Source: core/src/app.rs, core/src/loop_runner.rs, core/src/task_engine.rs.
 */
module TaskLockstep {
  import opened Wrappers
  import opened Backlog
  import opened AutonomousLoop
  import AgentNaming

  predicate Live(s: TaskStatus) {
    s == Ready || s == Running || s == Verifying
  }

  /** The todo status that goes with a task status. */
  predicate Fits(s: TaskStatus, todo: Option<TodoStatus>) {
    match s
    case Ready => todo == Some(InProgress)
    case Running => todo == Some(InProgress)
    case Verifying => todo == Some(InProgress)
    case Done => todo == Some(TodoDone)
    case Blocked => todo == Some(TodoBlocked)
    case Failed => todo.Some?
    case Draft => false
  }

  predicate DistinctTodos(todos: seq<Todo>) {
    forall i, j | 0 <= i < j < |todos| :: todos[i].id != todos[j].id
  }

  predicate Numbered(tasks: seq<Task>) {
    forall i | 0 <= i < |tasks| :: tasks[i].id == TaskIdOf(i + 1)
  }

  predicate AllFit(tasks: seq<Task>, todos: seq<Todo>) {
    forall i | 0 <= i < |tasks| :: Fits(tasks[i].status, TodoStatusOf(todos, tasks[i].todoId))
  }

  /** A todo is taken up again only after its earlier task failed. */
  predicate RetriesOnlyFailures(tasks: seq<Task>) {
    forall i, j | 0 <= i < j < |tasks| && tasks[i].todoId == tasks[j].todoId :: tasks[i].status == Failed
  }

  /** The active id names the last task and that is in flight; with no active id, none is. */
  predicate OneInFlight(tasks: seq<Task>, active: Option<string>) {
    && (forall i | 0 <= i < |tasks| - 1 :: !Live(tasks[i].status))
    && if active.None? then tasks != [] ==> !Live(tasks[|tasks| - 1].status)
       else tasks != [] && tasks[|tasks| - 1].id == active.value && Live(tasks[|tasks| - 1].status)
  }

  /** A todo in progress is that of the task in flight. */
  predicate OneInProgress(tasks: seq<Task>, todos: seq<Todo>, active: Option<string>) {
    forall j | 0 <= j < |todos| && todos[j].status == InProgress ::
      active.Some? && tasks != [] && todos[j].id == tasks[|tasks| - 1].todoId
  }

  predicate InStep(tasks: seq<Task>, todos: seq<Todo>, active: Option<string>) {
    && DistinctTodos(todos)
    && Numbered(tasks)
    && AllFit(tasks, todos)
    && RetriesOnlyFailures(tasks)
    && OneInFlight(tasks, active)
    && OneInProgress(tasks, todos, active)
  }

  predicate Lockstep(app: App) {
    InStep(app.tasks, app.todos, app.active)
  }

  /** Settled tasks keep their record, and only todos ready or in progress ever change. */
  predicate Follows(tasks: seq<Task>, todos: seq<Todo>, tasks': seq<Task>, todos': seq<Todo>) {
    && |tasks| <= |tasks'|
    && (forall i | 0 <= i < |tasks| && !Live(tasks[i].status) :: tasks'[i] == tasks[i])
    && |todos| == |todos'|
    && (forall j | 0 <= j < |todos| :: todos'[j].id == todos[j].id)
    && (forall j | 0 <= j < |todos| && !todos[j].status.TodoReady? && !todos[j].status.InProgress? ::
          todos'[j] == todos[j])
  }

  predicate Extends(app: App, later: App) {
    Follows(app.tasks, app.todos, later.tasks, later.todos)
  }

  /** How many tasks have come to an end. */
  function Settled(app: App): int {
    |app.tasks| - if app.active.Some? then 1 else 0
  }

  // ---------------------------------------------------------------- finding

  lemma TaskIdsDiffer(m: nat, n: nat)
    requires TaskIdOf(m) == TaskIdOf(n)
    ensures m == n
  {
    AgentNaming.ValueOfDigits(m);
    AgentNaming.ValueOfDigits(n);
    assert TaskIdOf(m)[|"task-"|..] == AgentNaming.Digits(m);
    assert TaskIdOf(n)[|"task-"|..] == AgentNaming.Digits(n);
  }

  /** Task ids are pairwise distinct, so the active id finds the last task. */
  lemma ActiveIsLast(tasks: seq<Task>, active: Option<string>)
    requires Numbered(tasks) && OneInFlight(tasks, active) && active.Some?
    ensures FindTask(tasks, active.value) == Some(|tasks| - 1)
  {
    var i := FindTask(tasks, active.value);
    TaskIdsDiffer(i.value + 1, |tasks|);
  }

  lemma TodoIs(todos: seq<Todo>, j: nat)
    requires DistinctTodos(todos) && j < |todos|
    ensures FindTodo(todos, todos[j].id) == Some(j)
  {
  }

  /** Changing one todo's status changes that of its id only. */
  lemma TodoChange(todos: seq<Todo>, j: nat, status: TodoStatus, id: string)
    requires DistinctTodos(todos) && j < |todos|
    ensures var u := todos[j := todos[j].(status := status)];
            DistinctTodos(u) && TodoStatusOf(u, id) == if id == todos[j].id then Some(status) else TodoStatusOf(todos, id)
  {
    var u := todos[j := todos[j].(status := status)];
    assert forall i | 0 <= i < |u| :: u[i].id == todos[i].id;
    TodoIs(todos, j);
    TodoIs(u, j);
    if id != todos[j].id && FindTodo(todos, id).Some? {
      TodoIs(u, FindTodo(todos, id).value);
    }
  }

  // ---------------------------------------------------------------- single operations

  lemma MarkKeeps(app: App, status: TaskStatus)
    requires Lockstep(app) && Live(status)
    ensures Lockstep(Marked(app, status)) && Extends(app, Marked(app, status))
    ensures Marked(app, status).active == app.active && Settled(Marked(app, status)) == Settled(app)
  {
    if app.active.Some? {
      ActiveIsLast(app.tasks, app.active);
    }
  }

  /** A todo that is ready has only failed tasks behind it. */
  lemma ReadyHasFailed(tasks: seq<Task>, todos: seq<Todo>, j: nat)
    requires DistinctTodos(todos) && AllFit(tasks, todos) && j < |todos| && todos[j].status.TodoReady?
    ensures forall i | 0 <= i < |tasks| && tasks[i].todoId == todos[j].id :: tasks[i].status == Failed
  {
  }

  /** Changing the todo of tasks that have all failed leaves every task fitting. */
  lemma FitsAfterChange(tasks: seq<Task>, todos: seq<Todo>, j: nat, status: TodoStatus)
    requires DistinctTodos(todos) && AllFit(tasks, todos) && j < |todos|
    requires forall i | 0 <= i < |tasks| && tasks[i].todoId == todos[j].id :: tasks[i].status == Failed
    ensures AllFit(tasks, todos[j := todos[j].(status := status)])
    ensures TodoStatusOf(todos[j := todos[j].(status := status)], todos[j].id) == Some(status)
    ensures DistinctTodos(todos[j := todos[j].(status := status)])
  {
    var u := todos[j := todos[j].(status := status)];
    forall i | 0 <= i < |tasks|
      ensures Fits(tasks[i].status, TodoStatusOf(u, tasks[i].todoId))
    {
      assert Fits(tasks[i].status, TodoStatusOf(todos, tasks[i].todoId));
      TodoChange(todos, j, status, tasks[i].todoId);
    }
    TodoChange(todos, j, status, todos[j].id);
  }

  lemma BeginKeeps(app: App, j: nat)
    requires Lockstep(app) && app.active.None? && j < |app.todos| && app.todos[j].status.TodoReady?
    ensures Lockstep(Begun(app, j)) && Extends(app, Begun(app, j))
    ensures Settled(Begun(app, j)) == Settled(app)
  {
    var begun := Begun(app, j);
    ReadyHasFailed(app.tasks, app.todos, j);
    FitsAfterChange(app.tasks, app.todos, j, InProgress);
    var task := begun.tasks[|app.tasks|];
    BeginOrder(app.tasks, task);
    BeginTodos(app.tasks, app.todos, j, task);
    assert AllFit(begun.tasks, begun.todos);
  }

  lemma BeginOrder(tasks: seq<Task>, task: Task)
    requires Numbered(tasks) && RetriesOnlyFailures(tasks) && OneInFlight(tasks, None)
    requires task.id == TaskIdOf(|tasks| + 1) && task.status == Ready
    requires forall i | 0 <= i < |tasks| && tasks[i].todoId == task.todoId :: tasks[i].status == Failed
    ensures var begun := tasks + [task];
      Numbered(begun) && RetriesOnlyFailures(begun) && OneInFlight(begun, Some(task.id))
  {
  }

  lemma BeginTodos(tasks: seq<Task>, todos: seq<Todo>, j: nat, task: Task)
    requires DistinctTodos(todos) && OneInProgress(tasks, todos, None) && j < |todos| && task.todoId == todos[j].id
    ensures OneInProgress(tasks + [task], todos[j := todos[j].(status := InProgress)], Some(task.id))
  {
  }

  /** The task in flight has a todo, and that is in progress. */
  lemma InFlightTodo(app: App) returns (j: nat)
    requires Lockstep(app) && app.active.Some?
    ensures j < |app.todos| && app.todos[j].id == app.tasks[|app.tasks| - 1].todoId
    ensures app.todos[j].status == InProgress && FindTodo(app.todos, app.todos[j].id) == Some(j)
  {
    var last := app.tasks[|app.tasks| - 1];
    assert Fits(last.status, TodoStatusOf(app.todos, last.todoId));
    j := FindTodo(app.todos, last.todoId).value;
  }

  lemma CloseFits(app: App, j: nat, to: TaskStatus, summary: Option<string>)
    requires Lockstep(app) && app.active.Some? && (to == Done || to == Failed || to == Blocked)
    requires j < |app.todos| && app.todos[j].id == app.tasks[|app.tasks| - 1].todoId
    requires app.todos[j].status == InProgress
    ensures var n := |app.tasks| - 1;
            var todos := app.todos[j := app.todos[j].(status := TodoAfter(to, InProgress))];
            var tasks := app.tasks[n := app.tasks[n].(status := to, summary := summary)];
            AllFit(tasks, todos) && DistinctTodos(todos)
  {
    var n := |app.tasks| - 1;
    var front := app.tasks[..n];
    assert forall i | 0 <= i < n :: Fits(app.tasks[i].status, TodoStatusOf(app.todos, app.tasks[i].todoId));
    FitsAfterChange(front, app.todos, j, TodoAfter(to, InProgress));
    assert app.tasks[n := app.tasks[n].(status := to, summary := summary)]
        == front + [app.tasks[n].(status := to, summary := summary)];
  }

  /** Replacing the last task by one that is no longer live. */
  lemma CloseOrder(tasks: seq<Task>, active: Option<string>, task: Task)
    requires Numbered(tasks) && RetriesOnlyFailures(tasks) && OneInFlight(tasks, active) && tasks != []
    requires task.id == tasks[|tasks| - 1].id && task.todoId == tasks[|tasks| - 1].todoId && !Live(task.status)
    ensures var closed := tasks[|tasks| - 1 := task];
            Numbered(closed) && RetriesOnlyFailures(closed) && OneInFlight(closed, None)
  {
  }

  lemma NoneInProgress(app: App, j: nat, status: TodoStatus, tasks: seq<Task>)
    requires Lockstep(app) && app.active.Some? && status != InProgress
    requires j < |app.todos| && app.todos[j].id == app.tasks[|app.tasks| - 1].todoId
    ensures OneInProgress(tasks, app.todos[j := app.todos[j].(status := status)], None)
  {
  }

  lemma CloseKeeps(app: App, to: TaskStatus, summary: Option<string>)
    requires Lockstep(app) && app.active.Some? && (to == Done || to == Failed || to == Blocked)
    ensures var closed := Closed(app, to, summary);
            && Lockstep(closed) && Extends(app, closed)
            && closed.active.None? && Settled(closed) == Settled(app) + 1
  {
    ActiveIsLast(app.tasks, app.active);
    var n := |app.tasks| - 1;
    var j := InFlightTodo(app);
    var task := app.tasks[n].(status := to, summary := summary);
    var closed := Closed(app, to, summary);
    assert closed.tasks == app.tasks[n := task];
    assert closed.todos == app.todos[j := app.todos[j].(status := TodoAfter(to, InProgress))];
    CloseFits(app, j, to, summary);
    CloseOrder(app.tasks, app.active, task);
    NoneInProgress(app, j, TodoAfter(to, InProgress), closed.tasks);
  }

  // ---------------------------------------------------------------- a turn, a task, the loop

  /** What a piece of the loop that ends in `later` has kept, and whether it settled the task. */
  predicate Kept(app: App, later: App, settles: bool, open: bool) {
    && Lockstep(later) && Extends(app, later)
    && (settles ==> later.active.None? && Settled(later) == Settled(app) + 1)
    && (open ==> later.active.Some? && Settled(later) == Settled(app))
  }

  /** The same tasks and todos, at any phase and error state. */
  predicate SameWork(app: App, start: App) {
    start.tasks == app.tasks && start.todos == app.todos && start.active == app.active
  }

  lemma CloseKept(app: App, start: App, to: TaskStatus, summary: Option<string>)
    requires Lockstep(app) && app.active.Some? && (to == Done || to == Failed || to == Blocked)
    requires SameWork(app, start)
    ensures Kept(app, Closed(start, to, summary), true, false)
  {
    CloseKeeps(start, to, summary);
  }

  lemma KeptAtPhase(app: App, later: App, settles: bool, phase: Phase)
    requires Kept(app, later, settles, false)
    ensures Kept(app, later.(phase := phase), settles, false)
  {
  }

  lemma ContinueKept(app: App, later: App)
    requires Lockstep(app) && app.active.Some? && SameWork(app, later)
    ensures Kept(app, later, false, true)
  {
  }

  lemma VerifyKeeps(app: App, t: Turn)
    requires Lockstep(app) && app.active.Some?
    ensures var checking := Marked(app.(phase := Checking), Verifying);
            && Kept(app, Closed(checking, Done, t.summary).(phase := Idle), true, false)
            && Kept(app, Closed(checking, Failed, Some(t.reason)).(phase := Idle), true, false)
  {
    var checking := Marked(app.(phase := Checking), Verifying);
    MarkKept(app, app.(phase := Checking), Verifying);
    CloseKept(checking, checking, Done, t.summary);
    CloseKept(checking, checking, Failed, Some(t.reason));
    KeptAfter(app, checking, Closed(checking, Done, t.summary), true, false);
    KeptAfter(app, checking, Closed(checking, Failed, Some(t.reason)), true, false);
    KeptAtPhase(app, Closed(checking, Done, t.summary), true, Idle);
    KeptAtPhase(app, Closed(checking, Failed, Some(t.reason)), true, Idle);
  }

  lemma MarkKept(app: App, start: App, status: TaskStatus)
    requires Lockstep(app) && app.active.Some? && Live(status) && SameWork(app, start)
    ensures Kept(app, Marked(start, status), false, true)
  {
    MarkKeeps(start, status);
  }

  /**
   The cases of deciding about a task, with what holds of every way to close it (`shut`) and of
   going on with it (`open`).
   */
  lemma ResolveCases(app: App, t: Turn, maxContinuations: nat, shut: App -> bool, open: App -> bool)
    requires Current(app).Some?
    requires shut(Closed(app.(phase := Idle), Failed, Some("provider execution failed")))
    requires shut(Closed(app.(phase := Idle), Failed, Some("provider returned no assistant summary")))
    requires shut(Closed(app.(phase := Escalating), Blocked, Some("continuation limit reached")))
    requires shut(Closed(app.(phase := Escalating), Blocked, Some(t.reason)))
    requires var checking := Marked(app.(phase := Checking), Verifying);
             && shut(Closed(checking, Done, t.summary).(phase := Idle))
             && shut(Closed(checking, Failed, Some(t.reason)).(phase := Idle))
    requires open(app.(continuations := app.continuations + 1, phase := Executing))
    ensures var (later, r) := Resolve(app, t, maxContinuations);
            r != NoTask && if r == GoOn then open(later) else shut(later)
  {
  }

  lemma ResolveKeeps(app: App, t: Turn, maxContinuations: nat)
    requires Lockstep(app) && app.active.Some?
    ensures var (later, r) := Resolve(app, t, maxContinuations);
            r != NoTask && Kept(app, later, r != GoOn, r == GoOn)
  {
    ActiveIsLast(app.tasks, app.active);
    CloseKept(app, app.(phase := Idle), Failed, Some("provider execution failed"));
    CloseKept(app, app.(phase := Idle), Failed, Some("provider returned no assistant summary"));
    CloseKept(app, app.(phase := Escalating), Blocked, Some("continuation limit reached"));
    CloseKept(app, app.(phase := Escalating), Blocked, Some(t.reason));
    VerifyKeeps(app, t);
    ContinueKept(app, app.(continuations := app.continuations + 1, phase := Executing));
    ResolveCases(app, t, maxContinuations,
      (later: App) => Kept(app, later, true, false), (later: App) => Kept(app, later, false, true));
  }

  lemma StartFailureKeeps(app: App, t: Turn)
    requires Lockstep(app) && app.active.Some?
    ensures Kept(app, StartFailed(app, t), true, false)
  {
    ActiveIsLast(app.tasks, app.active);
    CloseKept(app, app.(phase := Escalating), Blocked, Some("provider start failed: " + t.reason));
  }

  lemma ResolutionEnds(t: Turn, r: Resolution)
    requires r != NoTask
    ensures AfterResolution(t, r).Stop? ==> r != GoOn
    ensures AfterResolution(t, r).Again? ==> r == GoOn
  {
  }

  lemma KeptAfter(a: App, b: App, c: App, settles: bool, open: bool)
    requires Kept(a, b, false, true) && Kept(b, c, settles, open)
    ensures Kept(a, c, settles, open)
  {
  }

  lemma KeptWeaker(a: App, b: App, settles: bool, open: bool, settles': bool, open': bool)
    requires Kept(a, b, settles, open) && (settles' ==> settles) && (open' ==> open)
    ensures Kept(a, b, settles', open')
  {
  }

  /** Every turn keeps tasks and todos in step, and settles the task exactly if it is the last one. */
  lemma TurnKeeps(app: App, t: Turn, maxContinuations: nat)
    requires Lockstep(app) && app.active.Some?
    ensures var (later, next) := PlayTurn(app, t, maxContinuations);
            Kept(app, later, next.Stop?, next.Again?)
  {
    var (later, next) := PlayTurn(app, t, maxContinuations);
    var running := Marked(app.(phase := Executing), Running);
    MarkKept(app, app.(phase := Executing), Running);
    if t.abort == BeforeStart {
      KeptWeaker(app, running, false, true, false, false);
    } else if !t.starts {
      StartFailureKeeps(running, t);
      KeptAfter(app, running, later, true, false);
      KeptWeaker(app, later, true, false, next.Stop?, false);
    } else {
      StreamedTurnKeeps(app, running, t, maxContinuations);
    }
  }

  lemma StreamedTurnKeeps(app: App, running: App, t: Turn, maxContinuations: nat)
    requires Lockstep(running) && running.active.Some? && Kept(app, running, false, true)
    ensures var streamed := running.(hadError := running.hadError || t.failed);
            var (resolved, r) := Resolve(streamed, t, maxContinuations);
            var next := AfterResolution(t, r);
            && Kept(app, streamed, false, false)
            && Kept(app, resolved, next.Stop?, next.Again?)
  {
    var streamed := running.(hadError := running.hadError || t.failed);
    var (resolved, r) := Resolve(streamed, t, maxContinuations);
    var next := AfterResolution(t, r);
    ContinueKept(running, streamed);
    KeptAfter(app, running, streamed, false, true);
    ResolveKeeps(streamed, t, maxContinuations);
    KeptAfter(app, streamed, resolved, r != GoOn, r == GoOn);
    ResolutionEnds(t, r);
    KeptWeaker(app, resolved, r != GoOn, r == GoOn, next.Stop?, next.Again?);
    KeptWeaker(app, streamed, false, true, false, false);
  }

  lemma {:induction false} ExecuteKeeps(app: App, env: Env, k: nat, maxContinuations: nat)
    requires Lockstep(app) && app.active.Some?
    ensures var run := Execute(app, env, k, maxContinuations);
            Kept(app, run.app, run.outcome.Some?, false)
    decreases Remaining(app, maxContinuations)
  {
    var (after, next) := PlayTurn(app, env(k), maxContinuations);
    TurnKeeps(app, env(k), maxContinuations);
    if next == Again {
      ContinuingUsesUp(app, env(k), maxContinuations);
      ExecuteKeeps(after, env, k + 1, maxContinuations);
      var run := Execute(after, env, k + 1, maxContinuations);
      KeptAfter(app, after, run.app, run.outcome.Some?, false);
    }
  }

  predicate NothingLeft(todos: seq<Todo>) {
    forall j | 0 <= j < |todos| :: !todos[j].status.TodoReady? && !todos[j].status.InProgress?
  }

  predicate IterationKept(app: App, i: Iteration) {
    match i
    case NothingReady(after) =>
      Kept(app, after, false, false) && after.active.None? && Settled(after) == Settled(app) && NothingLeft(after.todos)
    case ErrorOut(after, _) => Kept(app, after, false, false)
    case Executed(after, _, _) => Kept(app, after, true, false)
  }

  /** Picking resumes the active task, or opens one on the first ready todo, or finds nothing left. */
  lemma PickKeeps(app: App)
    requires Lockstep(app)
    ensures Current(app).Some? <==> app.active.Some?
    ensures Pick(app).None? ==> app.active.None? && NothingLeft(app.todos)
    ensures Pick(app).Some? ==> Kept(app, Pick(app).value, false, true)
  {
    if app.active.Some? {
      ActiveIsLast(app.tasks, app.active);
      ContinueKept(app, app);
    } else if NextReadyTodo(app.todos).Some? {
      var id := NextReadyTodo(app.todos).value;
      var j :| 0 <= j < |app.todos| && app.todos[j].status.TodoReady? && app.todos[j].id == id;
      TodoIs(app.todos, j);
      BeginKeeps(app.(phase := Planning), j);
    }
  }

  lemma PickedKeeps(app: App, picked: App, env: Env, k: nat, maxContinuations: nat)
    requires Kept(app, picked, false, true)
    ensures var run := Execute(picked, env, k, maxContinuations);
            Kept(app, run.app, run.outcome.Some?, false) && Kept(app, picked, false, false)
  {
    var run := Execute(picked, env, k, maxContinuations);
    KeptWeaker(app, picked, false, true, false, false);
    ExecuteKeeps(picked, env, k, maxContinuations);
    KeptAfter(app, picked, run.app, run.outcome.Some?, false);
  }

  lemma IterateKeeps(app: App, env: Env, k: nat, maxContinuations: nat)
    requires Lockstep(app)
    ensures IterationKept(app, Iterate(app, env, k, maxContinuations))
  {
    PickKeeps(app);
    if Pick(app).Some? {
      PickedKeeps(app, Pick(app).value, env, k, maxContinuations);
    } else {
      ContinueKeptIdle(app);
    }
  }

  lemma ContinueKeptIdle(app: App)
    requires Lockstep(app)
    ensures Kept(app, app.(phase := Idle), false, false)
  {
  }

  /** What holds of the loop that started in `app` when it has counted n iterations. */
  predicate Counted(app: App, later: App, n: nat) {
    && Lockstep(later) && Extends(app, later)
    && Settled(later) == Settled(app) + n
    && (n > 0 ==> later.active.None?)
  }

  lemma CountedNext(app: App, a: App, n: nat, i: Iteration)
    requires Counted(app, a, n) && i.Executed? && IterationKept(a, i)
    ensures Counted(app, i.app, n + 1)
  {
  }

  lemma CountedAtPhase(app: App, a: App, n: nat, phase: Phase)
    requires Counted(app, a, n)
    ensures Counted(app, a.(phase := phase), n)
  {
  }

  // ---------------------------------------------------------------- main results

  /** What the whole loop keeps, and what it has done when it stops. */
  predicate LoopKept(app: App, e: Ended) {
    && Lockstep(e.app) && Extends(app, e.app)
    && (e.reason != ErrorReturn ==> Settled(e.app) == Settled(app) + e.iterations)
    && (e.reason != ErrorReturn && e.iterations > 0 ==> e.app.active.None?)
    && (e.reason == NoReadyTodo ==> e.app.active.None? && NothingLeft(e.app.todos))
  }

  /**
   From any state in step, whatever the providers do: the loop ends in step, no settled task
   and no done, blocked, candidate or dropped todo has changed, and unless an error return cut
   it short, every counted iteration settled exactly one task and no task is left in flight.
   */
  lemma LoopInLockstep(app: App, env: Env, g: Guardrails)
    requires Lockstep(app)
    ensures LoopKept(app, RunLoop(app, env, g))
  {
    var step := Iterating(env, g.maxContinuations);
    var inv := (a: App, n: nat, t: nat) => Counted(app, a, n);
    forall a, n: nat, t: nat | inv(a, n, t) && step(a, t).Executed?
      ensures inv(step(a, t).app, n + 1, step(a, t).turn)
    {
      IterateKeeps(a, env, t, g.maxContinuations);
      CountedNext(app, a, n, step(a, t));
    }
    forall a, n: nat, t: nat, phase | inv(a, n, t)
      ensures inv(a.(phase := phase), n, t)
    {
      CountedAtPhase(app, a, n, phase);
    }
    var last, at := LoopRule(step, g, app, 0, 0, 0, inv);
    var e := RunLoop(app, env, g);
    if e.reason in {NoReadyTodo, ErrorReturn} {
      IterateKeeps(last, env, at, g.maxContinuations);
      LoopStopsAt(app, last, e, step(last, at));
    }
  }

  lemma LoopStopsAt(app: App, last: App, e: Ended, i: Iteration)
    requires Counted(app, last, e.iterations) && IterationKept(last, i)
    requires (e.reason == NoReadyTodo && i == NothingReady(e.app))
          || (e.reason == ErrorReturn && i == ErrorOut(e.app, e.turn))
    ensures LoopKept(app, e)
  {
  }

  /** A fresh backlog is in step. */
  lemma FreshIsInStep(app: App)
    requires app.tasks == [] && app.active.None? && DistinctTodos(app.todos)
    requires forall j | 0 <= j < |app.todos| :: !app.todos[j].status.InProgress?
    ensures Lockstep(app)
  {
  }

  /** A loop that stops for want of work has left every todo done, blocked, dropped or undecided. */
  lemma StopsWhenNothingIsLeft(app: App, env: Env, g: Guardrails)
    requires Lockstep(app)
    ensures var e := RunLoop(app, env, g);
            e.reason == NoReadyTodo ==> NothingLeft(e.app.todos)
    ensures var e := RunLoop(app, env, g);
            e.reason == NoReadyTodo && app.tasks == [] && app.active.None? ==> |e.app.tasks| == e.iterations
  {
    LoopInLockstep(app, env, g);
  }

  /** The c-th task is the only live one and its todo the only one in progress. */
  predicate OnlyInFlight(app: App, c: nat)
    requires c < |app.tasks|
  {
    && (forall i | 0 <= i < |app.tasks| :: Live(app.tasks[i].status) <==> i == c)
    && var t := FindTodo(app.todos, app.tasks[c].todoId);
       t.Some? && forall j | 0 <= j < |app.todos| :: app.todos[j].status.InProgress? <==> j == t.value
  }

  /** What being in step means: the active id names exactly one task, and that alone is in flight. */
  lemma ExactlyOneInFlight(app: App)
    requires Lockstep(app)
    ensures forall i, j | 0 <= i < j < |app.tasks| :: app.tasks[i].id != app.tasks[j].id
    ensures app.active.None? ==> forall i | 0 <= i < |app.tasks| :: !Live(app.tasks[i].status)
    ensures app.active.None? ==> forall j | 0 <= j < |app.todos| :: !app.todos[j].status.InProgress?
    ensures app.active.Some? ==> Current(app).Some? && OnlyInFlight(app, Current(app).value)
  {
    forall i, j | 0 <= i < j < |app.tasks|
      ensures app.tasks[i].id != app.tasks[j].id
    {
      if app.tasks[i].id == app.tasks[j].id { TaskIdsDiffer(i + 1, j + 1); }
    }
    if app.active.Some? {
      ActiveIsLast(app.tasks, app.active);
      var t := InFlightTodo(app);
      forall j | 0 <= j < |app.todos| && app.todos[j].status.InProgress?
        ensures j == t
      {
        assert app.todos[j].id == app.todos[t].id;
      }
    }
  }
}
