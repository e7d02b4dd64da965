/**
 The autonomous loop as the program runs it: nested loops over a state changed in place.
 Source: core/src/loop_runner.rs, core/src/task_engine.rs, core/src/app.rs.
 */
module LoopRunner {
  import opened Wrappers
  import opened Backlog
  import opened AutonomousLoop

  datatype LoopRunSummary = LoopRunSummary(iterations: nat, verificationFailures: nat, stoppedReason: StopReason)

  datatype LoopError = Propagated

  /** The part of the application state that the loop works on. */
  class LoopState {
    var tasks: seq<Task>
    var todos: seq<Todo>
    var activeTaskId: Option<string>
    var activeTaskHadError: bool
    var continuationAttempts: nat
    var loopPhase: Phase

    function State(): App
      reads this
    {
      App(tasks, todos, activeTaskId, activeTaskHadError, continuationAttempts, loopPhase)
    }

    constructor (todos: seq<Todo>)
      ensures State() == App([], todos, None, false, 0, Idle)
    {
      this.todos := todos;
      tasks, activeTaskId, activeTaskHadError := [], None, false;
      continuationAttempts, loopPhase := 0, Idle;
    }

    method BeginTaskFromTodo(todoId: string) returns (r: Option<Task>)
      modifies this
      ensures match Begin(old(State()), todoId)
              case None => State() == old(State()) && r == None
              case Some(begun) => State() == begun && r == Some(begun.tasks[|begun.tasks| - 1])
    {
      var id := TaskIdOf(|tasks| + 1);
      var found := FindTodo(todos, todoId);
      if found.None? {
        return None;
      }
      var todo := todos[found.value];
      todos := todos[found.value := todo.(status := InProgress)];
      var task := Task(id, todo.id, todo.title, Ready, None);
      activeTaskId, activeTaskHadError, continuationAttempts := Some(id), false, 0;
      tasks := tasks + [task];
      return Some(task);
    }

    method SetActiveTaskStatus(status: TaskStatus)
      modifies this`tasks
      ensures State() == Marked(old(State()), status)
    {
      if activeTaskId.Some? {
        var found := FindTask(tasks, activeTaskId.value);
        if found.Some? {
          tasks := tasks[found.value := tasks[found.value].(status := status)];
        }
      }
    }

    method MarkActiveTaskRunning()
      modifies this`tasks
      ensures State() == Marked(old(State()), Running)
    {
      SetActiveTaskStatus(Running);
    }

    method MarkActiveTaskVerifying()
      modifies this`tasks
      ensures State() == Marked(old(State()), Verifying)
    {
      SetActiveTaskStatus(Verifying);
    }

    method CompleteActiveTask(summary: Option<string>)
      modifies this
      ensures State() == Closed(old(State()), Done, summary)
    {
      if activeTaskId.None? { return; }
      var found := FindTask(tasks, activeTaskId.value);
      activeTaskId := None;
      if found.Some? {
        var task := tasks[found.value];
        tasks := tasks[found.value := task.(status := Done, summary := summary)];
        var todo := FindTodo(todos, task.todoId);
        if todo.Some? {
          todos := todos[todo.value := todos[todo.value].(status := TodoDone)];
        }
      }
      activeTaskHadError, continuationAttempts := false, 0;
    }

    method FailActiveTask(reason: string)
      modifies this
      ensures State() == Closed(old(State()), Failed, Some(reason))
    {
      if activeTaskId.None? { return; }
      var found := FindTask(tasks, activeTaskId.value);
      activeTaskId := None;
      if found.Some? {
        var task := tasks[found.value];
        tasks := tasks[found.value := task.(status := Failed, summary := Some(reason))];
        var todo := FindTodo(todos, task.todoId);
        if todo.Some? && todos[todo.value].status.InProgress? {
          todos := todos[todo.value := todos[todo.value].(status := TodoReady)];
        }
      }
      activeTaskHadError, continuationAttempts := false, 0;
    }

    method BlockActiveTask(reason: string)
      modifies this
      ensures State() == Closed(old(State()), Blocked, Some(reason))
    {
      if activeTaskId.None? { return; }
      var found := FindTask(tasks, activeTaskId.value);
      activeTaskId := None;
      if found.Some? {
        var task := tasks[found.value];
        tasks := tasks[found.value := task.(status := Blocked, summary := Some(reason))];
        var todo := FindTodo(todos, task.todoId);
        if todo.Some? {
          todos := todos[todo.value := todos[todo.value].(status := TodoBlocked)];
        }
      }
      activeTaskHadError, continuationAttempts := false, 0;
    }

    method HandleProviderStartFailure(t: Turn)
      modifies this
      ensures State() == StartFailed(old(State()), t)
    {
      var current := Current(State());
      if current.Some? {
        loopPhase := Escalating;
        BlockActiveTask("provider start failed: " + t.reason);
      } else {
        loopPhase := Idle;
      }
    }

    method ResolveActiveTaskAfterTurn(t: Turn, maxContinuations: nat) returns (r: Resolution)
      modifies this
      ensures (State(), r) == Resolve(old(State()), t, maxContinuations)
    {
      var current := Current(State());
      if current.None? {
        loopPhase := Idle;
        return NoTask;
      }
      if activeTaskHadError {
        loopPhase := Idle;
        FailActiveTask("provider execution failed");
        return Saved(t, TaskFailed(false));
      }
      if t.summary.None? {
        loopPhase := Idle;
        FailActiveTask("provider returned no assistant summary");
        return Saved(t, TaskFailed(false));
      }
      if t.continues {
        if continuationAttempts >= maxContinuations {
          loopPhase := Escalating;
          BlockActiveTask("continuation limit reached");
          return Saved(t, Escalated);
        }
        continuationAttempts := continuationAttempts + 1;
        loopPhase := Executing;
        return GoOn;
      }
      if !t.complete {
        loopPhase := Escalating;
        BlockActiveTask(t.reason);
        return Saved(t, Escalated);
      }
      loopPhase := Checking;
      MarkActiveTaskVerifying();
      if t.verified {
        CompleteActiveTask(t.summary);
        loopPhase := Idle;
        return Saved(t, Completed);
      }
      FailActiveTask(t.reason);
      loopPhase := Idle;
      return Saved(t, TaskFailed(true));
    }

    /** One pass of the inner loop. */
    method RunTurn(t: Turn, maxContinuations: nat) returns (next: Next)
      modifies this
      ensures (State(), next) == PlayTurn(old(State()), t, maxContinuations)
    {
      loopPhase := Executing;
      MarkActiveTaskRunning();
      if t.abort == BeforeStart {
        return Broken;
      }
      if !t.starts {
        HandleProviderStartFailure(t);
        return if t.abort == AfterStartFailure then Broken else Stop(TaskEscalated);
      }
      if t.failed {
        activeTaskHadError := true;
      }
      if t.abort == InStream {
        return Broken;
      }
      var r := ResolveActiveTaskAfterTurn(t, maxContinuations);
      return AfterResolution(t, r);
    }

    /** Play turns until the active task is settled or an error is returned. */
    method ExecuteTaskUntilResolution(env: Env, k: nat, maxContinuations: nat)
      returns (outcome: Option<Outcome>, turn: nat)
      modifies this
      ensures Execution(State(), outcome, turn) == Execute(old(State()), env, k, maxContinuations)
    {
      turn := k;
      while true
        invariant Execute(State(), env, turn, maxContinuations) == Execute(old(State()), env, k, maxContinuations)
        decreases Remaining(State(), maxContinuations)
      {
        ContinuingUsesUp(State(), env(turn), maxContinuations);
        var next := RunTurn(env(turn), maxContinuations);
        turn := turn + 1;
        match next {
          case Again =>
          case Stop(reached) => return Some(reached), turn;
          case Broken => return None, turn;
        }
      }
    }

    /** Resume the active task, or begin one on the first ready todo. */
    method PickTask() returns (found: bool, begun: bool)
      modifies this
      ensures found == Pick(old(State())).Some? && begun == (found && Current(old(State())).None?)
      ensures State() == if found then Pick(old(State())).value else old(State()).(phase := Idle)
    {
      var current := Current(State());
      if current.Some? {
        return true, false;
      }
      var next := NextReadyTodo(todos);
      if next.None? {
        loopPhase := Idle;
        return false, false;
      }
      loopPhase := Planning;
      var task := BeginTaskFromTodo(next.value);
      if task.None? {
        ReadyTodoIsFound(todos, next.value);
        assert false;
      }
      return true, true;
    }

    /** The loop over tasks, under its guardrails. */
    method RunLoop(env: Env, g: Guardrails) returns (r: Result<LoopRunSummary, LoopError>)
      modifies this
      ensures var e := AutonomousLoop.RunLoop(old(State()), env, g);
              && State() == e.app
              && r == if e.reason == ErrorReturn then Err(Propagated)
                      else Ok(LoopRunSummary(e.iterations, e.failures, e.reason))
    {
      var iterations, failures, turn := 0, 0, 0;
      ghost var step := Iterating(env, g.maxContinuations);
      ghost var end := AutonomousLoop.RunLoop(State(), env, g);
      while true
        invariant Loop(step, g, State(), turn, iterations, failures) == end
        decreases g.maxIterations - iterations
      {
        if iterations >= g.maxIterations {
          loopPhase := Escalating;
          return Ok(LoopRunSummary(iterations, failures, MaxIterations));
        }
        assert step(State(), turn) == Iterate(State(), env, turn, g.maxContinuations);
        var found, begun := PickTask();
        if !found {
          return Ok(LoopRunSummary(iterations, failures, NoReadyTodo));
        }
        if begun && env(turn).abort == AtBegin {
          return Err(Propagated);
        }
        var outcome, after := ExecuteTaskUntilResolution(env, turn, g.maxContinuations);
        turn := after;
        if outcome.None? {
          return Err(Propagated);
        }
        if outcome.value == VerificationFailed {
          failures := failures + 1;
          if failures >= g.maxFailures {
            loopPhase := Escalating;
            return Ok(LoopRunSummary(iterations + 1, failures, MaxVerificationFailures));
          }
        }
        iterations := iterations + 1;
      }
    }
  }

  /** The next ready todo can be found again by its id. */
  lemma ReadyTodoIsFound(todos: seq<Todo>, id: string)
    requires NextReadyTodo(todos) == Some(id)
    ensures FindTodo(todos, id).Some?
  {
  }
}
