/** The backlog: tasks found by their first occurrence, and status changes guarded by the present status. */
module Backlog {
  import opened Search
  import opened Wrappers

  datatype TaskStatus = Draft | Ready | Running | Verifying | Done | Blocked | Failed

  datatype TodoStatus = Candidate | TodoReady | InProgress | TodoBlocked | TodoDone | Dropped

  datatype Task = Task(id: string, todoId: string, objective: string, status: TaskStatus, summary: Option<string>)

  datatype Todo = Todo(id: string, title: string, priority: nat, status: TodoStatus)

  function FindTask(tasks: seq<Task>, id: string): (r: Option<nat>)
    ensures r.Some? ==> r.value < |tasks| && tasks[r.value].id == id && forall j | 0 <= j < r.value :: tasks[j].id != id
    ensures r.None? ==> forall j | 0 <= j < |tasks| :: tasks[j].id != id
  {
    FirstIndex(tasks, (t: Task) => t.id == id)
  }

  function StatusOf(tasks: seq<Task>, id: string): Option<TaskStatus> {
    match FindTask(tasks, id) case None => None case Some(i) => Some(tasks[i].status)
  }

  predicate CanAssign(tasks: seq<Task>, id: string) {
    StatusOf(tasks, id) == Some(Ready)
  }

  /** Move the first task with an id to a status, if it is in one of the statuses given. */
  function Move(tasks: seq<Task>, id: string, from: set<TaskStatus>, to: TaskStatus, summary: Option<string>): seq<Task> {
    match FindTask(tasks, id)
    case None => tasks
    case Some(i) =>
      if tasks[i].status in from then tasks[i := tasks[i].(status := to, summary := summary.Or(tasks[i].summary))] else tasks
  }

  function StartTask(tasks: seq<Task>, id: string): seq<Task> { Move(tasks, id, {Ready}, Running, None) }

  function CompleteTask(tasks: seq<Task>, id: string, summary: string): seq<Task> {
    Move(tasks, id, {Running, Verifying}, Done, Some(summary))
  }

  function FailTask(tasks: seq<Task>, id: string, error: string): seq<Task> {
    Move(tasks, id, {Running}, Failed, Some(error))
  }

  function BlockTask(tasks: seq<Task>, id: string, reason: string): seq<Task> {
    Move(tasks, id, {Running}, Blocked, Some(reason))
  }

  /** The first task that is Ready. */
  function FirstReady(tasks: seq<Task>): (r: Option<string>)
    ensures r.Some? ==> exists i: nat :: IsFirstReady(tasks, i) && r.value == tasks[i].id
    ensures r.None? ==> forall j | 0 <= j < |tasks| :: !tasks[j].status.Ready?
  {
    var i := FirstIndex(tasks, (t: Task) => t.status.Ready?);
    if i.Some? then assert IsFirstReady(tasks, i.value); Some(tasks[i.value].id) else None
  }

  predicate IsFirstReady(tasks: seq<Task>, i: nat) {
    && i < |tasks| && tasks[i].status.Ready?
    && forall j | 0 <= j < i :: !tasks[j].status.Ready?
  }

  /** Moving one task leaves the status of every other id as it was. */
  lemma MoveStatus(tasks: seq<Task>, id: string, from: set<TaskStatus>, to: TaskStatus, summary: Option<string>, x: string)
    ensures var u := Move(tasks, id, from, to, summary);
      StatusOf(u, x) ==
        if x == id && StatusOf(tasks, id).Some? && StatusOf(tasks, id).value in from then Some(to) else StatusOf(tasks, x)
  {
    var u := Move(tasks, id, from, to, summary);
    assert |u| == |tasks| && forall j | 0 <= j < |tasks| :: u[j].id == tasks[j].id;
    SameIds(tasks, u, x);
  }

  lemma SameIds(t: seq<Task>, u: seq<Task>, x: string)
    requires |u| == |t| && forall j | 0 <= j < |t| :: u[j].id == t[j].id
    ensures FindTask(u, x) == FindTask(t, x)
  {
  }

  /** A task pushed at the end changes the status of no id already present. */
  lemma PushStatus(tasks: seq<Task>, task: Task, x: string)
    requires StatusOf(tasks, x).Some?
    ensures StatusOf(tasks + [task], x) == StatusOf(tasks, x)
  {
    var i := FindTask(tasks, x).value;
    var u := tasks + [task];
    assert u[i].id == x && forall j | 0 <= j < i :: u[j].id != x;
    var k := FindTask(u, x).value;
    assert !(i < k) && !(k < i);
  }

}

/** The backlog as the object a pool is handed. */
module BacklogStore {
  import opened Wrappers
  import opened Backlog

  class BacklogState {
    var tasks: seq<Task>

    constructor ()
      ensures tasks == []
    {
      tasks := [];
    }

    method StartTask(id: string) returns (moved: bool)
      modifies this
      ensures tasks == Backlog.StartTask(old(tasks), id) && moved == (StatusOf(old(tasks), id) == Some(Ready))
    {
      var found := FindTask(tasks, id);
      if found.Some? && tasks[found.value].status.Ready? {
        tasks := tasks[found.value := tasks[found.value].(status := Running)];
        return true;
      }
      return false;
    }

    method CompleteTask(id: string, summary: string) returns (moved: bool)
      modifies this
      ensures tasks == Backlog.CompleteTask(old(tasks), id, summary)
      ensures moved == (StatusOf(old(tasks), id) in {Some(Running), Some(Verifying)})
    {
      var found := FindTask(tasks, id);
      if found.Some? && (tasks[found.value].status.Running? || tasks[found.value].status.Verifying?) {
        tasks := tasks[found.value := tasks[found.value].(status := Done, summary := Some(summary))];
        return true;
      }
      return false;
    }

    method FailTask(id: string, error: string) returns (moved: bool)
      modifies this
      ensures tasks == Backlog.FailTask(old(tasks), id, error) && moved == (StatusOf(old(tasks), id) == Some(Running))
    {
      var found := FindTask(tasks, id);
      if found.Some? && tasks[found.value].status.Running? {
        tasks := tasks[found.value := tasks[found.value].(status := Failed, summary := Some(error))];
        return true;
      }
      return false;
    }

    method BlockTask(id: string, reason: string) returns (moved: bool)
      modifies this
      ensures tasks == Backlog.BlockTask(old(tasks), id, reason) && moved == (StatusOf(old(tasks), id) == Some(Running))
    {
      var found := FindTask(tasks, id);
      if found.Some? && tasks[found.value].status.Running? {
        tasks := tasks[found.value := tasks[found.value].(status := Blocked, summary := Some(reason))];
        return true;
      }
      return false;
    }
  }
}
