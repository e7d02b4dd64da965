/**
 The persistence coordinator as the program runs it: a queue popped from the front, and a
 disk written one file at a time. Source: core/src/persistence_coordinator.rs.
 */
module PersistenceCoordinator {
  import opened Wrappers
  import opened PersistenceQueue

  datatype IoError = WriteFailed

  function Paths(ops: seq<Op>): seq<Path> {
    seq(|ops|, i requires 0 <= i < |ops| => PathOf(ops[i]))
  }

  /** The first i of these writes have been done, and nothing else. */
  predicate Wrote(before: Files, ops: seq<Op>, disk: Disk, i: nat, files: Files, saved: seq<Path>) {
    && i <= |ops| && (forall j | 0 <= j < i :: disk(j) == Done)
    && files == Replay(before, ops[..i]) && saved == Paths(ops[..i])
  }

  lemma WroteNext(before: Files, ops: seq<Op>, disk: Disk, i: nat, files: Files, saved: seq<Path>)
    requires Wrote(before, ops, disk, i, files, saved) && i < |ops| && disk(i) == Done
    ensures Wrote(before, ops, disk, i + 1, Write(files, ops[i]), saved + [PathOf(ops[i])])
  {
    assert ops[..i + 1][..i] == ops[..i];
  }

  /** Stopping after i writes, at the end or at a failure. */
  lemma WroteStops(before: Files, ops: seq<Op>, disk: Disk, i: nat, files: Files, saved: seq<Path>)
    requires Wrote(before, ops, disk, i, files, saved) && (i < |ops| ==> disk(i) != Done)
    ensures Written(|ops|, disk) == i
    ensures Execute(before, ops, disk) == if i < |ops| then Attempt(files, ops[i], disk(i)) else files
    ensures i == |ops| ==> saved == Paths(ops)
  {
    if i == |ops| {
      assert ops[..i] == ops;
    }
  }

  class AgentPersistenceCoordinator {
    /** The workplace's agent directories. */
    var files: Files
    var pending: seq<Op>
    var processed: nat

    function State(): Store
      reads this
    {
      Store(files, pending, processed)
    }

    constructor (workplace: Files)
      ensures State() == Store(workplace, [], 0)
    {
      files, pending, processed := workplace, [], 0;
    }

    method Enqueue(op: Op)
      modifies this`pending
      ensures pending == old(pending) + [op]
    {
      pending := pending + [op];
    }

    method EnqueueBatch(ops: seq<Op>)
      modifies this`pending
      ensures pending == old(pending) + ops
    {
      for i := 0 to |ops|
        invariant pending == old(pending) + ops[..i]
      {
        pending := pending + [ops[i]];
        assert ops[..i + 1] == ops[..i] + [ops[i]];
      }
      assert ops[..|ops|] == ops;
    }

    method ExecuteOp(op: Op, outcome: Outcome) returns (r: Result<Path, IoError>)
      modifies this`files
      ensures files == Attempt(old(files), op, outcome)
      ensures r == if outcome == Done then Ok(PathOf(op)) else Err(WriteFailed)
    {
      var path := (op.agent, FileName(op));
      match outcome
      case Done =>
        files := files[path := op.content];
        r := Ok(path);
      case Refused =>
        r := Err(WriteFailed);
      case Torn(left) =>
        files := files[path := left];
        r := Err(WriteFailed);
    }

    /** Write all that is queued, oldest first; stop at the first failure. */
    method Flush(disk: Disk) returns (r: Result<seq<Path>, IoError>)
      modifies this
      ensures State() == Flushed(old(State()), disk)
      ensures r == if Healthy(disk, |old(pending)|) then Ok(Paths(old(pending))) else Err(WriteFailed)
    {
      ghost var ops, before := pending, files;
      var saved: seq<Path>, i: nat := [], 0;
      while pending != []
        invariant i <= |ops| && pending == ops[i..] && processed == old(processed) + i
        invariant Wrote(before, ops, disk, i, files, saved)
        decreases |pending|
      {
        ghost var now, paths := files, saved;
        var op := pending[0];
        pending := pending[1..];
        var path := ExecuteOp(op, disk(i));
        if path.Err? {
          WroteStops(before, ops, disk, i, now, paths);
          return Err(path.error);
        }
        WroteNext(before, ops, disk, i, now, paths);
        saved := saved + [path.value];
        processed, i := processed + 1, i + 1;
      }
      WroteStops(before, ops, disk, i, files, saved);
      return Ok(saved);
    }

    /** Write one agent's queued operations now; the others stay queued, in order. */
    method ForceSave(agent: AgentId, disk: Disk) returns (r: Result<seq<Path>, IoError>)
      modifies this
      ensures State() == ForceSaved(old(State()), agent, disk)
      ensures r == if Healthy(disk, |Of(old(pending), agent)|) then Ok(Paths(Of(old(pending), agent)))
                   else Err(WriteFailed)
    {
      var all := pending;
      pending := [];
      var matching, others := Partition(all, agent);
      EnqueueBatch(others);
      ghost var before := files;
      var saved: seq<Path> := [];
      for i := 0 to |matching|
        invariant pending == others && processed == old(processed) + i
        invariant Wrote(before, matching, disk, i, files, saved)
      {
        ghost var now := files;
        var path := ExecuteOp(matching[i], disk(i));
        if path.Err? {
          WroteStops(before, matching, disk, i, now, saved);
          return Err(path.error);
        }
        WroteNext(before, matching, disk, i, now, saved);
        saved := saved + [path.value];
        processed := processed + 1;
      }
      WroteStops(before, matching, disk, |matching|, files, saved);
      return Ok(saved);
    }

    static method Partition(all: seq<Op>, agent: AgentId) returns (matching: seq<Op>, others: seq<Op>)
      ensures matching == Of(all, agent) && others == Others(all, agent)
    {
      matching, others := [], [];
      for i := 0 to |all|
        invariant matching == Of(all[..i], agent) && others == Others(all[..i], agent)
      {
        assert all[..i + 1][..i] == all[..i];
        if all[i].agent == agent {
          matching := matching + [all[i]];
        } else {
          others := others + [all[i]];
        }
      }
      assert all[..|all|] == all;
    }
  }
}
