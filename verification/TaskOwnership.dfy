/**
 Who holds which task: assignment, completion, clearing and the hand-over when an agent
 blocks.  No task is ever held twice and no held task is Ready; and exactly when an assignment
 or a hand-over makes the pool lose sight of another task.
 */
module TaskOwnership {
  import opened Search
  import opened Wrappers
  import opened Backlog
  import opened BacklogStore
  import SlotStatus
  import AP = AgentPool
  import Transcript

  datatype World = World(slots: seq<AP.Slot>, tasks: seq<Task>)

  datatype Completion = Success | Failure(error: string)

  datatype Policy = KeepAssigned | ReassignIfPossible | MarkWaiting

  datatype Outcome<+T> = Outcome(world: World, result: Result<T, string>)

  // ----- Operations -----

  function WithTask(slots: seq<AP.Slot>, i: nat, task: Option<string>): seq<AP.Slot>
    requires i < |slots|
  {
    slots[i := slots[i].(task := task)]
  }

  function WithStatus(slots: seq<AP.Slot>, i: nat, status: SlotStatus.Status): seq<AP.Slot>
    requires i < |slots|
  {
    slots[i := slots[i].(status := status)]
  }

  /** A task is taken only if it is Ready and only by an idle agent; it is Running from then on. */
  function Assign(w: World, agent: string, task: string): Outcome<()> {
    if !CanAssign(w.tasks, task) then Outcome(w, Err("Task cannot be assigned (not found or not ready)"))
    else
      match AP.IndexOf(w.slots, agent)
      case None => Outcome(w, Err(AP.NotFound(agent)))
      case Some(i) =>
        if !w.slots[i].status.Idle? then Outcome(w, Err("Cannot assign task to agent"))
        else Outcome(World(WithTask(w.slots, i, Some(task)), StartTask(w.tasks, task)), Ok(()))
  }

  function FirstIdle(slots: seq<AP.Slot>): (r: Option<nat>)
    ensures r.Some? ==> r.value < |slots| && slots[r.value].status.Idle? && forall j | 0 <= j < r.value :: !slots[j].status.Idle?
    ensures r.None? ==> forall j | 0 <= j < |slots| :: !slots[j].status.Idle?
  {
    FirstIndex(slots, (s: AP.Slot) => s.status.Idle?)
  }

  function AutoAssign(w: World): World {
    if FirstIdle(w.slots).Some? && FirstReady(w.tasks).Some? then
      Assign(w, w.slots[FirstIdle(w.slots).value].agentId, FirstReady(w.tasks).value).world
    else w
  }

  const SUCCESS_SUMMARY := "Task completed successfully"

  function Complete(w: World, agent: string, how: Completion): Outcome<string> {
    match AP.IndexOf(w.slots, agent)
    case None => Outcome(w, Err(AP.NotFound(agent)))
    case Some(i) =>
      match w.slots[i].task
      case None => Outcome(w, Err("Agent has no assigned task"))
      case Some(task) =>
        var tasks := match how
          case Success => CompleteTask(w.tasks, task, SUCCESS_SUMMARY)
          case Failure(error) => FailTask(w.tasks, task, error);
        Outcome(World(WithTask(w.slots, i, None), tasks), Ok(task))
  }

  function ClearTask(w: World, agent: string): World {
    match AP.IndexOf(w.slots, agent)
    case None => w
    case Some(i) => w.(slots := WithTask(w.slots, i, None))
  }

  function TransitionTo(w: World, agent: string, status: SlotStatus.Status): Outcome<()> {
    match AP.IndexOf(w.slots, agent)
    case None => Outcome(w, Err(AP.NotFound(agent)))
    case Some(i) =>
      if SlotStatus.CanTransition(w.slots[i].status, status) then Outcome(w.(slots := WithStatus(w.slots, i, status)), Ok(()))
      else Outcome(w, Err("Invalid transition"))
  }

  predicate IsRateLimit(b: SlotStatus.BlockedState) {
    b.reasonType == "rate_limit" || (b.reasonType == "error" && Transcript.Contains(b.description, "429"))
  }

  const WAITING_REASON := "agent_blocked"

  /** What becomes of the task of a slot that has just been blocked. */
  function HandleBlockedTask(w: World, i: nat, policy: Policy): World
    requires i < |w.slots|
  {
    match w.slots[i].task
    case None => w
    case Some(task) =>
      match policy
      case KeepAssigned => w
      case MarkWaiting => w.(tasks := BlockTask(w.tasks, task, WAITING_REASON))
      case ReassignIfPossible =>
        match FirstIdle(w.slots)
        case None => w
        case Some(j) =>
          if StatusOf(w.tasks, task) == Some(Running) then
            w.(slots := WithTask(WithTask(w.slots, j, Some(task)), i, None))
          else w
  }

  function BlockedStatus(blocked: SlotStatus.BlockedState, now: int): SlotStatus.Status {
    if IsRateLimit(blocked) then SlotStatus.Resting(now, blocked, false) else SlotStatus.BlockedForDecision(blocked)
  }

  /** An agent becomes blocked, or rests when it hit a rate limit; then its task is handled. */
  function BlockAgent(w: World, agent: string, blocked: SlotStatus.BlockedState, now: int, policy: Policy): Outcome<()> {
    var moved := TransitionTo(w, agent, BlockedStatus(blocked, now));
    if moved.result.Err? then Outcome(w, moved.result)
    else Outcome(HandleBlockedTask(moved.world, AP.IndexOf(w.slots, agent).value, policy), Ok(()))
  }

  // ----- Runs -----

  datatype Step =
    | AddTask(task: Task)
    | AssignStep(agent: string, taskId: string)
    | AutoAssignStep
    | CompleteStep(agent: string, how: Completion)
    | ClearStep(agent: string)
    | MoveStep(agent: string, status: SlotStatus.Status)
    | BlockStep(agent: string, blocked: SlotStatus.BlockedState, now: int, policy: Policy)
    | Join(slot: AP.Slot)
    | Leave(index: nat)

  function Act(w: World, step: Step): World {
    match step
    case AddTask(task) => w.(tasks := w.tasks + [task])
    case AssignStep(agent, task) => Assign(w, agent, task).world
    case AutoAssignStep => AutoAssign(w)
    case CompleteStep(agent, how) => Complete(w, agent, how).world
    case ClearStep(agent) => ClearTask(w, agent)
    case MoveStep(agent, status) => TransitionTo(w, agent, status).world
    case BlockStep(agent, blocked, now, policy) => BlockAgent(w, agent, blocked, now, policy).world
    case Join(slot) =>
      if AP.HasId(w.slots, slot.agentId) then w else w.(slots := w.slots + [slot.(task := None)])
    case Leave(i) => if i < |w.slots| then w.(slots := w.slots[..i] + w.slots[i + 1..]) else w
  }

  function Run(w: World, steps: seq<Step>): World
    decreases |steps|
  {
    if steps == [] then w else Run(Act(w, steps[0]), steps[1..])
  }

  // ----- The ownership invariant -----

  predicate Exclusive(slots: seq<AP.Slot>) {
    forall i, j | 0 <= i < j < |slots| :: slots[i].task.Some? ==> slots[j].task != slots[i].task
  }

  predicate HeldNotReady(slots: seq<AP.Slot>, tasks: seq<Task>) {
    forall i | 0 <= i < |slots| && slots[i].task.Some? ::
      StatusOf(tasks, slots[i].task.value).Some? && !CanAssign(tasks, slots[i].task.value)
  }

  predicate Inv(w: World) {
    AP.DistinctIds(w.slots) && Exclusive(w.slots) && HeldNotReady(w.slots, w.tasks)
  }

  /** Giving a slot a task that no slot holds, or taking its task away. */
  lemma WithTaskKeepsExclusive(slots: seq<AP.Slot>, i: nat, task: Option<string>)
    requires i < |slots| && Exclusive(slots) && AP.DistinctIds(slots)
    requires task.Some? ==> forall j | 0 <= j < |slots| && j != i :: slots[j].task != task
    ensures Exclusive(WithTask(slots, i, task)) && AP.DistinctIds(WithTask(slots, i, task))
  {
  }

  /** Tasks that do not become Ready stay fit to be held. */
  lemma MoveKeepsHeld(slots: seq<AP.Slot>, tasks: seq<Task>, id: string, from: set<TaskStatus>, to: TaskStatus, summary: Option<string>)
    requires HeldNotReady(slots, tasks) && !to.Ready?
    ensures HeldNotReady(slots, Move(tasks, id, from, to, summary))
  {
    forall i | 0 <= i < |slots| && slots[i].task.Some?
      ensures StatusOf(Move(tasks, id, from, to, summary), slots[i].task.value).Some?
      ensures !CanAssign(Move(tasks, id, from, to, summary), slots[i].task.value)
    {
      MoveStatus(tasks, id, from, to, summary, slots[i].task.value);
    }
  }

  lemma AssignKeepsInv(w: World, agent: string, task: string)
    requires Inv(w)
    ensures Inv(Assign(w, agent, task).world)
  {
    if Assign(w, agent, task).result.Ok? {
      var i := AP.IndexOf(w.slots, agent).value;
      WithTaskKeepsExclusive(w.slots, i, Some(task));
      MoveKeepsHeld(w.slots, w.tasks, task, {Ready}, Running, None);
      MoveStatus(w.tasks, task, {Ready}, Running, None, task);
    }
  }

  lemma AutoAssignKeepsInv(w: World)
    requires Inv(w)
    ensures Inv(AutoAssign(w))
  {
    if FirstIdle(w.slots).Some? && FirstReady(w.tasks).Some? {
      AssignKeepsInv(w, w.slots[FirstIdle(w.slots).value].agentId, FirstReady(w.tasks).value);
    }
  }

  lemma CompleteKeepsInv(w: World, agent: string, how: Completion)
    requires Inv(w)
    ensures Inv(Complete(w, agent, how).world)
  {
    if Complete(w, agent, how).result.Ok? {
      var i := AP.IndexOf(w.slots, agent).value;
      var task := w.slots[i].task.value;
      var slots := WithTask(w.slots, i, None);
      WithTaskKeepsExclusive(w.slots, i, None);
      match how
      case Success => MoveKeepsHeld(slots, w.tasks, task, {Running, Verifying}, Done, Some(SUCCESS_SUMMARY));
      case Failure(error) => MoveKeepsHeld(slots, w.tasks, task, {Running}, Failed, Some(error));
    }
  }

  lemma HandleKeepsInv(w: World, i: nat, policy: Policy)
    requires Inv(w) && i < |w.slots| && !w.slots[i].status.Idle?
    ensures Inv(HandleBlockedTask(w, i, policy))
  {
    if w.slots[i].task.Some? {
      var task := w.slots[i].task.value;
      if policy.MarkWaiting? {
        MoveKeepsHeld(w.slots, w.tasks, task, {Running}, Blocked, Some(WAITING_REASON));
      } else if policy.ReassignIfPossible? && FirstIdle(w.slots).Some? {
        var j := FirstIdle(w.slots).value;
        WithTaskKeepsExclusive(w.slots, i, None);
        WithTaskKeepsExclusive(WithTask(w.slots, i, None), j, Some(task));
        assert WithTask(WithTask(w.slots, j, Some(task)), i, None) == WithTask(WithTask(w.slots, i, None), j, Some(task));
      }
    }
  }

  lemma BlockKeepsInv(w: World, agent: string, blocked: SlotStatus.BlockedState, now: int, policy: Policy)
    requires Inv(w)
    ensures Inv(BlockAgent(w, agent, blocked, now, policy).world)
  {
    var moved := TransitionTo(w, agent, BlockedStatus(blocked, now));
    if moved.result.Ok? {
      assert Inv(moved.world);
      HandleKeepsInv(moved.world, AP.IndexOf(w.slots, agent).value, policy);
    }
  }

  lemma AddKeepsInv(w: World, task: Task)
    requires Inv(w)
    ensures Inv(Act(w, AddTask(task)))
  {
    forall i | 0 <= i < |w.slots| && w.slots[i].task.Some?
      ensures StatusOf(w.tasks + [task], w.slots[i].task.value) == StatusOf(w.tasks, w.slots[i].task.value)
    {
      PushStatus(w.tasks, task, w.slots[i].task.value);
    }
  }

  /** Agents that come without a task, go, change status or drop their task. */
  lemma OthersKeepInv(w: World, step: Step)
    requires Inv(w) && (step.ClearStep? || step.MoveStep? || step.Join? || step.Leave?)
    ensures Inv(Act(w, step))
  {
    if step.ClearStep? && AP.IndexOf(w.slots, step.agent).Some? {
      WithTaskKeepsExclusive(w.slots, AP.IndexOf(w.slots, step.agent).value, None);
    }
  }

  lemma StepKeepsInv(w: World, step: Step)
    requires Inv(w)
    ensures Inv(Act(w, step))
  {
    match step
    case AddTask(task) => AddKeepsInv(w, task);
    case AssignStep(agent, task) => AssignKeepsInv(w, agent, task);
    case AutoAssignStep => AutoAssignKeepsInv(w);
    case CompleteStep(agent, how) => CompleteKeepsInv(w, agent, how);
    case BlockStep(agent, blocked, now, policy) => BlockKeepsInv(w, agent, blocked, now, policy);
    case ClearStep(_) => OthersKeepInv(w, step);
    case MoveStep(_, _) => OthersKeepInv(w, step);
    case Join(_) => OthersKeepInv(w, step);
    case Leave(_) => OthersKeepInv(w, step);
  }

  /** Over every run and any policy, two agents never hold one task and no held task is Ready. */
  lemma {:induction false} NoDoubleOwnership(w: World, steps: seq<Step>)
    requires Inv(w)
    ensures Inv(Run(w, steps))
    decreases |steps|
  {
    if steps != [] {
      StepKeepsInv(w, steps[0]);
      NoDoubleOwnership(Act(w, steps[0]), steps[1..]);
    }
  }

  // ----- Tasks the pool loses sight of -----

  function Held(slots: seq<AP.Slot>): set<string> {
    set i | 0 <= i < |slots| && slots[i].task.Some? :: slots[i].task.value
  }

  /** Replacing a slot's task by one no other slot holds: the old task is held by nobody. */
  lemma HeldAfter(slots: seq<AP.Slot>, i: nat, task: Option<string>)
    requires i < |slots| && Exclusive(slots)
    requires task.Some? ==> forall j | 0 <= j < |slots| && j != i :: slots[j].task != task
    ensures Held(WithTask(slots, i, task)) ==
      Held(slots) - (if slots[i].task.Some? then {slots[i].task.value} else {}) + (if task.Some? then {task.value} else {})
  {
    var after := WithTask(slots, i, task);
    forall t ensures t in Held(after) <==>
      t in Held(slots) - (if slots[i].task.Some? then {slots[i].task.value} else {}) + (if task.Some? then {task.value} else {})
    {
      if t in Held(slots) && Some(t) != slots[i].task {
        var j :| 0 <= j < |slots| && slots[j].task == Some(t);
        assert after[j].task == Some(t);
      }
      if task == Some(t) { assert after[i].task == Some(t); }
      if t in Held(after) {
        var j :| 0 <= j < |after| && after[j].task == Some(t);
        assert j != i ==> slots[j].task == Some(t);
      }
    }
  }

  /**
   An assignment adds its task to those held; it keeps all the others exactly when the agent
   held none, since an agent stays idle after being assigned a task.
   */
  lemma AssignLosesOldTask(w: World, agent: string, task: string)
    requires Inv(w) && Assign(w, agent, task).result.Ok?
    ensures var i := AP.IndexOf(w.slots, agent).value;
      Held(Assign(w, agent, task).world.slots) == Held(w.slots) + {task} <==> w.slots[i].task == None
  {
    var i := AP.IndexOf(w.slots, agent).value;
    HeldAfter(w.slots, i, Some(task));
    if w.slots[i].task.Some? {
      assert w.slots[i].task.value in Held(w.slots) && w.slots[i].task.value != task;
    }
  }

  /** The agent that a hand-over from slot i would pick, if it would pick one. */
  function HandOverTarget(w: World, i: nat): Option<nat>
    requires i < |w.slots|
  {
    if w.slots[i].task.Some? && StatusOf(w.tasks, w.slots[i].task.value) == Some(Running) then FirstIdle(w.slots) else None
  }

  /**
   A hand-over moves the task: the blocked slot has none, the target has exactly it, every other
   slot and the backlog are unchanged.
   */
  lemma HandOverMoves(w: World, i: nat)
    requires Inv(w) && i < |w.slots| && !w.slots[i].status.Idle? && HandOverTarget(w, i).Some?
    ensures var j, z := HandOverTarget(w, i).value, HandleBlockedTask(w, i, ReassignIfPossible);
      && j != i && z.tasks == w.tasks && |z.slots| == |w.slots|
      && z.slots[i].task == None && z.slots[j].task == w.slots[i].task
      && (forall k | 0 <= k < |w.slots| && k != i && k != j :: z.slots[k] == w.slots[k])
  {
  }

  /** It keeps every task in view exactly when the target held none. */
  lemma HandOverLosesTargetsTask(w: World, i: nat)
    requires Inv(w) && i < |w.slots| && !w.slots[i].status.Idle? && HandOverTarget(w, i).Some?
    ensures Held(HandleBlockedTask(w, i, ReassignIfPossible).slots) == Held(w.slots)
      <==> w.slots[HandOverTarget(w, i).value].task == None
  {
    var j, task := HandOverTarget(w, i).value, w.slots[i].task;
    HeldAfter(w.slots, i, None);
    WithTaskKeepsExclusive(w.slots, i, None);
    var cleared := WithTask(w.slots, i, None);
    HeldAfter(cleared, j, task);
    assert WithTask(WithTask(w.slots, j, task), i, None) == WithTask(cleared, j, task);
    assert task.value in Held(w.slots) by { assert w.slots[i].task == task; }
    if w.slots[j].task.Some? {
      assert w.slots[j].task.value in Held(w.slots) && w.slots[j].task != task;
    }
  }

  // ----- How such states come about -----

  function IdleAgent(id: string): AP.Slot {
    AP.NewSlot(id, "alpha", AP.Claude, AP.Developer)
  }

  function ReadyTask(id: string): Task {
    Task(id, "todo-1", "objective", Ready, None)
  }

  /** Two assignments to one idle agent: the first task is running and nobody has it. */
  lemma SecondAssignmentForgetsFirst()
    ensures var w := World([IdleAgent("a")], [ReadyTask("t1"), ReadyTask("t2")]);
      var first := Assign(w, "a", "t1");
      var second := Assign(first.world, "a", "t2");
      && Inv(w) && first.result.Ok? && second.result.Ok?
      && Held(first.world.slots) == {"t1"} && Held(second.world.slots) == {"t2"}
      && StatusOf(second.world.tasks, "t1") == Some(Running)
  {
    var w := World([IdleAgent("a")], [ReadyTask("t1"), ReadyTask("t2")]);
    TwoTasks(w.tasks);
    assert AP.IndexOf(w.slots, "a") == Some(0);
    var first := Assign(w, "a", "t1").world;
    assert first.tasks == [w.tasks[0].(status := Running), w.tasks[1]];
    TwoTasks(first.tasks);
    assert AP.IndexOf(first.slots, "a") == Some(0);
    var second := Assign(first, "a", "t2").world;
    assert second.tasks == [first.tasks[0], w.tasks[1].(status := Running)];
    TwoTasks(second.tasks);
    OneHolds(first.slots, "t1");
    OneHolds(second.slots, "t2");
  }

  lemma TwoTasks(tasks: seq<Task>)
    requires |tasks| == 2 && tasks[0].id == "t1" && tasks[1].id == "t2"
    ensures FindTask(tasks, "t1") == Some(0) && FindTask(tasks, "t2") == Some(1)
  {
    assert tasks[1..][0] == tasks[1];
  }

  lemma OneHolds(slots: seq<AP.Slot>, task: string)
    requires |slots| == 1 && slots[0].task == Some(task)
    ensures Held(slots) == {task}
  {
    assert slots[0].task == Some(task);
  }

  function TwoAssigned(): World {
    var w := World([IdleAgent("a"), IdleAgent("b")], [ReadyTask("t1"), ReadyTask("t2")]);
    Assign(Assign(w, "a", "t1").world, "b", "t2").world
  }

  lemma BothAssigned()
    ensures var w := TwoAssigned();
      && |w.slots| == 2 && w.slots[0].agentId == "a" && w.slots[1].agentId == "b"
      && w.slots[0].status.Idle? && w.slots[1].status.Idle?
      && w.slots[0].task == Some("t1") && w.slots[1].task == Some("t2")
      && StatusOf(w.tasks, "t1") == Some(Running) && StatusOf(w.tasks, "t2") == Some(Running)
  {
    var w := World([IdleAgent("a"), IdleAgent("b")], [ReadyTask("t1"), ReadyTask("t2")]);
    TwoTasks(w.tasks);
    TwoAgents(w.slots);
    var first := Assign(w, "a", "t1").world;
    TwoTasks(first.tasks);
    TwoAgents(first.slots);
    TwoTasks(TwoAssigned().tasks);
  }

  /** Two idle agents with a task each; one blocks and its task goes to the other, whose own is forgotten. */
  lemma HandOverForgetsTargetsTask(blocked: SlotStatus.BlockedState, now: int)
    requires !IsRateLimit(blocked)
    ensures var w := TwoAssigned();
      var after := BlockAgent(w, "b", blocked, now, ReassignIfPossible);
      && "t1" in Held(w.slots) && StatusOf(w.tasks, "t1") == Some(Running)
      && after.result.Ok? && after.world.tasks == w.tasks && Held(after.world.slots) == {"t2"}
  {
    BothAssigned();
    assert TwoAssigned().slots[0].task == Some("t1");
    BlockedHandsOver(TwoAssigned(), blocked, now);
  }

  lemma BlockedHandsOver(w: World, blocked: SlotStatus.BlockedState, now: int)
    requires |w.slots| == 2 && w.slots[0].agentId == "a" && w.slots[1].agentId == "b"
    requires w.slots[0].status.Idle? && w.slots[1].status.Idle? && w.slots[1].task == Some("t2")
    requires StatusOf(w.tasks, "t2") == Some(Running) && !IsRateLimit(blocked)
    ensures var o := BlockAgent(w, "b", blocked, now, ReassignIfPossible);
      o.result.Ok? && o.world.tasks == w.tasks && Held(o.world.slots) == {"t2"}
  {
    TwoAgents(w.slots);
    var moved := WithStatus(w.slots, 1, SlotStatus.BlockedForDecision(blocked));
    TwoAgents(moved);
    var after := BlockAgent(w, "b", blocked, now, ReassignIfPossible).world.slots;
    assert after[0].task == Some("t2") && after[1].task == None;
  }

  lemma TwoAgents(slots: seq<AP.Slot>)
    requires |slots| == 2 && slots[0].agentId == "a" && slots[1].agentId == "b"
    ensures AP.IndexOf(slots, "a") == Some(0) && AP.IndexOf(slots, "b") == Some(1)
    ensures slots[0].status.Idle? ==> FirstIdle(slots) == Some(0)
  {
    assert slots[1..][0] == slots[1];
  }

  // ----- The pool's methods -----

  class TaskPool {
    var slots: seq<AP.Slot>
    var policy: Policy

    constructor (slots: seq<AP.Slot>, policy: Policy)
      ensures this.slots == slots && this.policy == policy
    {
      this.slots, this.policy := slots, policy;
    }

    /** The slot's own assignment: only an idle agent takes a task. */
    method AssignSlot(i: nat, task: string) returns (ok: bool)
      requires i < |slots|
      modifies this`slots
      ensures ok == old(slots)[i].status.Idle?
      ensures slots == if ok then WithTask(old(slots), i, Some(task)) else old(slots)
    {
      if !slots[i].status.Idle? {
        return false;
      }
      slots := slots[i := slots[i].(task := Some(task))];
      return true;
    }

    method AssignTaskWithBacklog(agent: string, task: string, backlog: BacklogState) returns (result: Result<(), string>)
      modifies this`slots, backlog
      ensures Outcome(World(slots, backlog.tasks), result) == Assign(old(World(slots, backlog.tasks)), agent, task)
    {
      if !CanAssign(backlog.tasks, task) {
        return Err("Task cannot be assigned (not found or not ready)");
      }
      var found := AP.IndexOf(slots, agent);
      if found.None? {
        return Err(AP.NotFound(agent));
      }
      var ok := AssignSlot(found.value, task);
      if !ok {
        return Err("Cannot assign task to agent");
      }
      var moved := backlog.StartTask(task);
      return Ok(());
    }

    method CompleteTaskWithBacklog(agent: string, how: Completion, backlog: BacklogState) returns (result: Result<string, string>)
      modifies this`slots, backlog
      ensures Outcome(World(slots, backlog.tasks), result) == Complete(old(World(slots, backlog.tasks)), agent, how)
    {
      var found := AP.IndexOf(slots, agent);
      if found.None? {
        return Err(AP.NotFound(agent));
      }
      var i := found.value;
      if slots[i].task.None? {
        return Err("Agent has no assigned task");
      }
      var task := slots[i].task.value;
      var moved: bool;
      match how {
        case Success => moved := backlog.CompleteTask(task, SUCCESS_SUMMARY);
        case Failure(error) => moved := backlog.FailTask(task, error);
      }
      slots := slots[i := slots[i].(task := None)];
      return Ok(task);
    }

    method HandleBlocked(i: nat, backlog: BacklogState)
      requires i < |slots|
      modifies this`slots, backlog
      ensures World(slots, backlog.tasks) == HandleBlockedTask(old(World(slots, backlog.tasks)), i, policy)
    {
      if slots[i].task.None? {
        return;
      }
      var task := slots[i].task.value;
      match policy
      case KeepAssigned =>
      case ReassignIfPossible =>
        var idle := FirstIdle(slots);
        if idle.Some? && StatusOf(backlog.tasks, task) == Some(Running) {
          var ok := AssignSlot(idle.value, task);
          if ok {
            slots := slots[i := slots[i].(task := None)];
          }
        }
      case MarkWaiting =>
        var moved := backlog.BlockTask(task, WAITING_REASON);
    }

    /** Without a backlog the agent is blocked and its task left alone. */
    method ProcessAgentBlocked(agent: string, blocked: SlotStatus.BlockedState, now: int, backlog: BacklogState?)
      returns (result: Result<(), string>)
      modifies this`slots, backlog
      ensures backlog != null ==>
        Outcome(World(slots, backlog.tasks), result) == BlockAgent(old(World(slots, backlog.tasks)), agent, blocked, now, policy)
      ensures backlog == null ==> forall tasks ::
        Outcome(World(slots, tasks), result) == TransitionTo(World(old(slots), tasks), agent, BlockedStatus(blocked, now))
    {
      var found := AP.IndexOf(slots, agent);
      if found.None? {
        return Err(AP.NotFound(agent));
      }
      var i := found.value;
      var status := BlockedStatus(blocked, now);
      if !SlotStatus.CanTransition(slots[i].status, status) {
        return Err("Invalid transition");
      }
      slots := slots[i := slots[i].(status := status)];
      if backlog != null {
        HandleBlocked(i, backlog);
      }
      return Ok(());
    }
  }
}
