/**
 The headless loop's own assignment, which works from a list of ready tasks taken beforehand
 and not from the backlog as it changes: every waiting agent is given the same task.
 Source: cli/src/app_runner.rs.
 */
module HeadlessAssignment {
  import opened Wrappers
  import opened Backlog
  import opened BacklogStore
  import opened TaskOwnership
  import opened OwnershipEffects
  import AP = AgentPool

  predicate Waiting(s: AP.Slot) {
    s.status.Idle? && s.task.None?
  }

  predicate AnyWaiting(slots: seq<AP.Slot>) {
    exists i :: 0 <= i < |slots| && Waiting(slots[i])
  }

  /** The slots once the first k have been looked at. */
  function Given(slots: seq<AP.Slot>, k: nat, task: string): seq<AP.Slot> {
    seq(|slots|, i requires 0 <= i < |slots| =>
      if i < k && Waiting(slots[i]) then slots[i].(task := Some(task)) else slots[i])
  }

  function AssignWaiting(w: World): World {
    match FirstReady(w.tasks)
    case None => w
    case Some(task) =>
      World(Given(w.slots, |w.slots|, task), if AnyWaiting(w.slots) then StartTask(w.tasks, task) else w.tasks)
  }

  /** Two agents come to hold one task exactly when more than one was waiting. */
  lemma SameTaskTwice(w: World)
    requires Inv(w) && FirstReady(w.tasks).Some? && CanAssign(w.tasks, FirstReady(w.tasks).value)
    ensures Exclusive(AssignWaiting(w).slots) <==>
      forall i, j | 0 <= i < j < |w.slots| :: !(Waiting(w.slots[i]) && Waiting(w.slots[j]))
  {
    var task := FirstReady(w.tasks).value;
    var after := AssignWaiting(w).slots;
    if i, j :| 0 <= i < j < |w.slots| && Waiting(w.slots[i]) && Waiting(w.slots[j]) {
      assert after[i].task == Some(task) == after[j].task;
    } else {
      forall i, j | 0 <= i < j < |after| && after[i].task.Some?
        ensures after[j].task != after[i].task
      {
        assert w.slots[i].task != Some(task) && w.slots[j].task != Some(task);
      }
    }
  }

  /** Starting a task twice is starting it once. */
  lemma StartTwice(tasks: seq<Task>, id: string)
    ensures StartTask(StartTask(tasks, id), id) == StartTask(tasks, id)
  {
    SameIds(tasks, StartTask(tasks, id), id);
  }

  /** Every waiting agent holds the first Ready task afterwards, and it runs if there was such an agent. */
  lemma WaitingAgentsGetFirstReady(w: World, k: nat, i: nat)
    requires IsFirstReady(w.tasks, k) && i < |w.slots|
    ensures var z, task := AssignWaiting(w), w.tasks[k].id;
      && |z.slots| == |w.slots|
      && (Waiting(w.slots[i]) ==> z.slots[i].task == Some(task) && z.slots[i].(task := None) == w.slots[i])
      && (!Waiting(w.slots[i]) ==> z.slots[i] == w.slots[i])
      && (Waiting(w.slots[i]) && CanAssign(w.tasks, task) ==>
            OnlyTask(w.tasks, z.tasks, task, Running, None))
      && (!AnyWaiting(w.slots) || !CanAssign(w.tasks, task) ==> z.tasks == w.tasks)
  {
    ReadyFound(w.tasks, k);
    MoveMoves(w.tasks, w.tasks[k].id, {Ready}, Running, None);
  }

  /** Without a Ready task the loop does nothing. */
  lemma NobodyGetsNothing(w: World)
    requires forall k | 0 <= k < |w.tasks| :: !w.tasks[k].status.Ready?
    ensures AssignWaiting(w) == w
  {
  }

  lemma OneMoreLookedAt(slots: seq<AP.Slot>, k: nat, task: string)
    requires k < |slots|
    ensures Given(slots, k, task)[k] == slots[k]
    ensures Given(slots, k + 1, task)
         == if Waiting(slots[k]) then Given(slots, k, task)[k := slots[k].(task := Some(task))] else Given(slots, k, task)
    ensures AnyWaiting(slots[..k + 1]) <==> AnyWaiting(slots[..k]) || Waiting(slots[k])
  {
    assert slots[..k + 1] == slots[..k] + [slots[k]];
    if Waiting(slots[k]) { assert Waiting(slots[..k + 1][k]); }
    if i :| 0 <= i < k && Waiting(slots[..k][i]) { assert Waiting(slots[..k + 1][i]); }
  }

  method AssignReadyTasks(pool: TaskPool, backlog: BacklogState)
    modifies pool`slots, backlog
    ensures World(pool.slots, backlog.tasks) == AssignWaiting(old(World(pool.slots, backlog.tasks)))
  {
    var ready := FirstReady(backlog.tasks);
    if ready.None? {
      return;
    }
    ghost var before := pool.slots;
    var started := false;
    for k := 0 to |pool.slots|
      invariant pool.slots == Given(before, k, ready.value)
      invariant backlog.tasks == if started then StartTask(old(backlog.tasks), ready.value) else old(backlog.tasks)
      invariant started <==> AnyWaiting(before[..k])
    {
      OneMoreLookedAt(before, k, ready.value);
      if pool.slots[k].status.Idle? && pool.slots[k].task.None? {
        var ok := pool.AssignSlot(k, ready.value);
        if ok {
          StartTwice(old(backlog.tasks), ready.value);
          var moved := backlog.StartTask(ready.value);
          started := true;
        }
      }
    }
    assert before[..|before|] == before;
  }
}
