/**
 What assigning, finishing, clearing and blocking do to an agent and its task: when each is
 refused, and otherwise the one slot and the one task that change. Source: core/src/agent_pool.rs,
 core/src/agent_slot.rs, agent/backlog/src/backlog.rs.
 */
module OwnershipEffects {
  import opened Wrappers
  import opened Backlog
  import opened TaskOwnership
  import opened PoolEffects
  import AP = AgentPool
  import SlotStatus

  /** One task, the first with its id, gets a status and maybe a summary; no other task changes. */
  predicate OnlyTask(before: seq<Task>, after: seq<Task>, id: string, status: TaskStatus, summary: Option<string>) {
    && |after| == |before|
    && forall k | 0 <= k < |before| ::
         var first := before[k].id == id && forall j | 0 <= j < k :: before[j].id != id;
         && after[k].id == before[k].id && after[k].todoId == before[k].todoId
         && after[k].objective == before[k].objective
         && after[k].status == (if first then status else before[k].status)
         && after[k].summary == (if first && summary != None then summary else before[k].summary)
  }

  lemma MoveMoves(tasks: seq<Task>, id: string, from: set<TaskStatus>, to: TaskStatus, summary: Option<string>)
    ensures StatusOf(tasks, id).Some? && StatusOf(tasks, id).value in from ==>
      OnlyTask(tasks, Move(tasks, id, from, to, summary), id, to, summary)
    ensures !(StatusOf(tasks, id).Some? && StatusOf(tasks, id).value in from) ==> Move(tasks, id, from, to, summary) == tasks
  {
  }

  /** Only the task of one slot changes. */
  predicate OnlyItsTask(before: seq<AP.Slot>, after: seq<AP.Slot>, i: nat, task: Option<string>) {
    && OnlySlot(before, after, i)
    && after[i].task == task && after[i].(task := before[i].task) == before[i]
  }

  predicate OnlyItsStatus(before: seq<AP.Slot>, after: seq<AP.Slot>, i: nat, status: SlotStatus.Status) {
    && OnlySlot(before, after, i)
    && after[i].status == status && after[i].(status := before[i].status) == before[i]
  }

  /** An assignment needs a Ready task and an idle agent; the agent holds the task and it runs. */
  lemma AssignAssigns(w: World, agent: string, task: string, i: nat)
    requires IsAt(w.slots, agent, i)
    ensures var o := Assign(w, agent, task);
      && (o.result.Ok? <==> StatusOf(w.tasks, task) == Some(Ready) && w.slots[i].status.Idle?)
      && (o.result.Err? ==> o.world == w)
      && (o.result.Ok? ==>
            && OnlyItsTask(w.slots, o.world.slots, i, Some(task))
            && OnlyTask(w.tasks, o.world.tasks, task, Running, None))
  {
    Found(w.slots, agent, i);
    MoveMoves(w.tasks, task, {Ready}, Running, None);
  }

  /**
   Finishing: the agent holds no task any more. Success makes the task Done if it was running or
   being verified, failure makes it Failed if it was running; otherwise it is left as it was.
   */
  lemma CompleteCompletes(w: World, agent: string, how: Completion, i: nat)
    requires IsAt(w.slots, agent, i) && w.slots[i].task.Some?
    ensures var o := Complete(w, agent, how);
      var task := w.slots[i].task.value;
      var was := StatusOf(w.tasks, task);
      && o.result == Ok(task)
      && OnlyItsTask(w.slots, o.world.slots, i, None)
      && (how.Success? && was in {Some(Running), Some(Verifying)} ==>
            OnlyTask(w.tasks, o.world.tasks, task, Done, Some("Task completed successfully")))
      && (how.Failure? && was == Some(Running) ==>
            OnlyTask(w.tasks, o.world.tasks, task, Failed, Some(how.error)))
      && (was !in {Some(Running), Some(Verifying)} || (how.Failure? && was == Some(Verifying)) ==>
            o.world.tasks == w.tasks)
  {
    Found(w.slots, agent, i);
    var task := w.slots[i].task.value;
    if how.Success? {
      MoveMoves(w.tasks, task, {Running, Verifying}, Done, Some(SUCCESS_SUMMARY));
    } else {
      MoveMoves(w.tasks, task, {Running}, Failed, Some(how.error));
    }
  }

  /** Finishing is refused, and changes nothing, of an agent that is not there or holds no task. */
  lemma NothingToComplete(w: World, agent: string, how: Completion)
    requires forall i: nat | IsAt(w.slots, agent, i) :: w.slots[i].task.None?
    ensures Complete(w, agent, how).result.Err? && Complete(w, agent, how).world == w
  {
    var r := AP.IndexOf(w.slots, agent);
    if r.Some? {
      Present(w.slots, agent);
    }
  }

  lemma Present(slots: seq<AP.Slot>, agent: string)
    requires AP.IndexOf(slots, agent).Some?
    ensures IsAt(slots, agent, AP.IndexOf(slots, agent).value)
  {
    var i := AP.IndexOf(slots, agent).value;
    forall j | 0 <= j < i
      ensures slots[j].agentId != agent
    {
      assert slots[..i][j] == slots[j];
    }
  }

  /** An agent that is not there is assigned nothing, cleared of nothing, moved nowhere and not blocked. */
  lemma UnknownAgent(w: World, agent: string, task: string, status: SlotStatus.Status, b: SlotStatus.BlockedState, now: int, policy: Policy)
    requires Absent(w.slots, agent)
    ensures Assign(w, agent, task).world == ClearTask(w, agent) == TransitionTo(w, agent, status).world == w
    ensures BlockAgent(w, agent, b, now, policy).world == w
    ensures Assign(w, agent, task).result.Err? && TransitionTo(w, agent, status).result.Err?
    ensures BlockAgent(w, agent, b, now, policy).result.Err?
  {
    NotThere(w.slots, agent);
  }

  lemma ClearClears(w: World, agent: string, i: nat)
    requires IsAt(w.slots, agent, i)
    ensures OnlyItsTask(w.slots, ClearTask(w, agent).slots, i, None) && ClearTask(w, agent).tasks == w.tasks
  {
    Found(w.slots, agent, i);
  }

  lemma TransitionMoves(w: World, agent: string, status: SlotStatus.Status, i: nat)
    requires IsAt(w.slots, agent, i)
    ensures var o := TransitionTo(w, agent, status);
      && (o.result.Ok? <==> EnteredFrom(status, w.slots[i].status) || SlotStatus.Same(w.slots[i].status, status))
      && (o.result.Err? ==> o.world == w)
      && (o.result.Ok? ==> OnlyItsStatus(w.slots, o.world.slots, i, status) && o.world.tasks == w.tasks)
  {
    Found(w.slots, agent, i);
    MatrixBothWays(w.slots[i].status, status);
  }

  /** The first slot in the pool that is idle. */
  predicate IsFirstIdle(slots: seq<AP.Slot>, i: nat) {
    && i < |slots| && slots[i].status.Idle?
    && forall j | 0 <= j < i :: !slots[j].status.Idle?
  }

  lemma ReadyFound(tasks: seq<Task>, k: nat)
    requires IsFirstReady(tasks, k)
    ensures FirstReady(tasks) == Some(tasks[k].id)
    ensures CanAssign(tasks, tasks[k].id) <==> forall j | 0 <= j < k :: tasks[j].id != tasks[k].id
  {
    var r := FirstReady(tasks);
    assert r.Some?;
    var i: nat :| IsFirstReady(tasks, i) && r.value == tasks[i].id;
    assert i == k;
    var f := FindTask(tasks, tasks[k].id).value;
    assert f <= k;
  }

  /**
   Assigning by itself: the first Ready task goes to the first idle agent, unless an earlier
   task shares its id. Without an idle agent or a Ready task nothing happens.
   */
  lemma AutoAssignPicks(w: World, i: nat, k: nat)
    requires AP.DistinctIds(w.slots) && IsFirstIdle(w.slots, i) && IsFirstReady(w.tasks, k)
    ensures var z := AutoAssign(w);
      if exists j | 0 <= j < k :: w.tasks[j].id == w.tasks[k].id then z == w
      else
        && OnlyItsTask(w.slots, z.slots, i, Some(w.tasks[k].id))
        && OnlyTask(w.tasks, z.tasks, w.tasks[k].id, Running, None)
        && z.tasks[k].status == Running
  {
    ReadyFound(w.tasks, k);
    assert FirstIdle(w.slots) == Some(i);
    assert IsAt(w.slots, w.slots[i].agentId, i);
    AssignAssigns(w, w.slots[i].agentId, w.tasks[k].id, i);
  }

  lemma AutoAssignIdles(w: World)
    requires (forall i | 0 <= i < |w.slots| :: !w.slots[i].status.Idle?) || forall k | 0 <= k < |w.tasks| :: !w.tasks[k].status.Ready?
    ensures AutoAssign(w) == w
  {
  }

  // ----- Blocking -----

  /**
   When an agent can be blocked. A rate limit puts it to rest, and rest can only be entered from
   a block or from rest; so a rate limit met at work is refused and the agent goes on as it was.
   */
  predicate CanBlock(status: SlotStatus.Status, blocked: SlotStatus.BlockedState) {
    if IsRateLimit(blocked) then status.BlockedForDecision? || status.Resting?
    else
      match status
      case Idle => true
      case Starting => true
      case Responding(_) => true
      case ToolExecuting(_) => true
      case Finishing => true
      case Blocked(_) => true
      case WaitingForInput(_) => true
      case BlockedForDecision(b) =>
        b.reasonType == blocked.reasonType && b.urgency == blocked.urgency && b.context == blocked.context
      case _ => false
  }

  lemma BlockExactly(w: World, agent: string, blocked: SlotStatus.BlockedState, now: int, policy: Policy, i: nat)
    requires IsAt(w.slots, agent, i)
    ensures var o := BlockAgent(w, agent, blocked, now, policy);
      && (o.result.Ok? <==> CanBlock(w.slots[i].status, blocked))
      && (o.result.Err? ==> o.world == w)
      && (o.result.Ok? ==>
            var blockedAs :=
              if IsRateLimit(blocked) then SlotStatus.Resting(now, blocked, false) else SlotStatus.BlockedForDecision(blocked);
            exists m: World ::
              && OnlyItsStatus(w.slots, m.slots, i, blockedAs) && m.tasks == w.tasks
              && o.world == HandleBlockedTask(m, i, policy))
  {
    Found(w.slots, agent, i);
    var m := TransitionTo(w, agent, BlockedStatus(blocked, now));
    TransitionMoves(w, agent, BlockedStatus(blocked, now), i);
    if m.result.Ok? {
      assert OnlyItsStatus(w.slots, m.world.slots, i, BlockedStatus(blocked, now));
    }
  }

  /** What becomes of a blocked agent's task under each policy. */
  lemma PolicyDecides(w: World, i: nat, policy: Policy)
    requires i < |w.slots| && !w.slots[i].status.Idle?
    ensures var z := HandleBlockedTask(w, i, policy);
      var task := w.slots[i].task;
      && (task.None? || policy.KeepAssigned? ==> z == w)
      && (task.Some? && policy.MarkWaiting? ==>
            && z.slots == w.slots
            && (if StatusOf(w.tasks, task.value) == Some(Running)
                then OnlyTask(w.tasks, z.tasks, task.value, Blocked, Some("agent_blocked")) else z.tasks == w.tasks))
      && (task.Some? && policy.ReassignIfPossible? ==>
            && z.tasks == w.tasks
            && (StatusOf(w.tasks, task.value) != Some(Running) ==> z == w)
            && ((forall j | 0 <= j < |w.slots| :: !w.slots[j].status.Idle?) ==> z == w)
            && forall j: nat | IsFirstIdle(w.slots, j) && StatusOf(w.tasks, task.value) == Some(Running) ::
                 && |z.slots| == |w.slots|
                 && z.slots[i].task == None && z.slots[i].(task := task) == w.slots[i]
                 && z.slots[j].task == task && z.slots[j].(task := w.slots[j].task) == w.slots[j]
                 && forall k | 0 <= k < |w.slots| && k != i && k != j :: z.slots[k] == w.slots[k])
  {
    if w.slots[i].task.Some? {
      MoveMoves(w.tasks, w.slots[i].task.value, {Running}, Blocked, Some(WAITING_REASON));
      forall j: nat | IsFirstIdle(w.slots, j)
        ensures FirstIdle(w.slots) == Some(j)
      {
      }
    }
  }
}
