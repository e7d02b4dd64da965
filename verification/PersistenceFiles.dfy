/**
 What one flush or forced save leaves in each of an agent's five files, whatever write fails.
 Source: core/src/persistence_coordinator.rs.
 */
module PersistenceFiles {
  import opened Wrappers
  import opened PersistenceQueue

  /** Two writes of one agent's metadata, of its transcript, its state, its messages or its memory. */
  predicate SameKind(p: Op, q: Op) {
    || (p.SaveMeta? && q.SaveMeta?)
    || (p.SaveTranscript? && q.SaveTranscript?)
    || (p.SaveState? && q.SaveState?)
    || (p.SaveMessages? && q.SaveMessages?)
    || (p.SaveMemory? && q.SaveMemory?)
  }

  predicate SameEntity(p: Op, q: Op) {
    p.agent == q.agent && SameKind(p, q)
  }

  /** Every kind of every agent has a file of its own. */
  lemma PathsApart(p: Op, q: Op)
    ensures PathOf(p) == PathOf(q) <==> SameEntity(p, q)
  {
    assert "meta.json"[1] != "messages.json"[2];
    assert |"meta.json"| == 9 && |"transcript.json"| == 15 && |"state.json"| == 10;
    assert |"messages.json"| == 13 && |"memory.json"| == 11;
  }

  /** The i-th write is the last one of an entity. */
  predicate LastOf(ops: seq<Op>, i: nat, entity: Op) {
    && i < |ops| && SameEntity(ops[i], entity)
    && forall j | i < j < |ops| :: !SameEntity(ops[j], entity)
  }

  predicate NoneOf(ops: seq<Op>, entity: Op) {
    forall j | 0 <= j < |ops| :: !SameEntity(ops[j], entity)
  }

  /** An entity's file holds the last content written, and is as before if none was. */
  ghost predicate HoldsLast(before: Files, after: Files, ops: seq<Op>, entity: Op) {
    && (forall i: nat | LastOf(ops, i, entity) :: Read(after, PathOf(entity)) == Some(ops[i].content))
    && (NoneOf(ops, entity) ==> Read(after, PathOf(entity)) == Read(before, PathOf(entity)))
  }

  lemma {:induction false} LastIs(ops: seq<Op>, i: nat, entity: Op)
    requires LastOf(ops, i, entity)
    ensures LastWrite(ops, PathOf(entity)) == Some(ops[i].content)
  {
    var n := |ops| - 1;
    PathsApart(ops[n], entity);
    if i < n {
      LastIs(ops[..n], i, entity);
    }
  }

  lemma {:induction false} NoneIs(ops: seq<Op>, entity: Op)
    requires NoneOf(ops, entity)
    ensures LastWrite(ops, PathOf(entity)) == None
  {
    if ops != [] {
      PathsApart(ops[|ops| - 1], entity);
      NoneIs(ops[..|ops| - 1], entity);
    }
  }

  lemma ReplayHoldsLast(files: Files, ops: seq<Op>, entity: Op)
    ensures HoldsLast(files, Replay(files, ops), ops, entity)
  {
    ReadReplay(files, ops, PathOf(entity));
    if NoneOf(ops, entity) {
      NoneIs(ops, entity);
    }
    forall i: nat | LastOf(ops, i, entity)
      ensures LastWrite(ops, PathOf(entity)) == Some(ops[i].content)
    {
      LastIs(ops, i, entity);
    }
  }

  /**
   What writing ops in order leaves of an entity: the last content written before the first
   failure; a refused write leaves its file as it was, a torn one leaves what got through.
   */
  ghost predicate Leaves(before: Files, after: Files, ops: seq<Op>, disk: Disk, k: nat, entity: Op)
    requires k <= |ops|
  {
    if k < |ops| && disk(k).Torn? && SameEntity(ops[k], entity) then
      Read(after, PathOf(entity)) == Some(disk(k).left)
    else HoldsLast(before, after, ops[..k], entity)
  }

  /** A failed write changes its own file at most, and that only if it was torn. */
  lemma AttemptFails(files: Files, op: Op, outcome: Outcome, entity: Op)
    requires outcome != Done
    ensures Read(Attempt(files, op, outcome), PathOf(entity))
         == if outcome.Torn? && SameEntity(op, entity) then Some(outcome.left) else Read(files, PathOf(entity))
  {
    PathsApart(op, entity);
  }

  lemma ExecuteLeaves(files: Files, ops: seq<Op>, disk: Disk, entity: Op)
    ensures Leaves(files, Execute(files, ops, disk), ops, disk, Written(|ops|, disk), entity)
  {
    var k := Written(|ops|, disk);
    var done := Replay(files, ops[..k]);
    ReplayHoldsLast(files, ops[..k], entity);
    if k == |ops| {
      assert ops[..k] == ops;
    } else {
      AttemptFails(done, ops[k], disk(k), entity);
    }
  }

  /** The number of writes before the first failure, or of all. */
  predicate FirstFailure(n: nat, disk: Disk, k: nat) {
    && k <= n
    && (forall i | 0 <= i < k :: disk(i) == Done)
    && (k < n ==> disk(k) != Done)
  }

  /** After a flush every entity holds what was queued for it up to the first failure, which alone is dropped. */
  lemma FlushLeaves(s: Store, disk: Disk, k: nat, entity: Op)
    requires FirstFailure(|s.pending|, disk, k)
    ensures Leaves(s.files, Flushed(s, disk).files, s.pending, disk, k, entity)
    ensures Flushed(s, disk).pending == if k == |s.pending| then [] else s.pending[k + 1..]
    ensures Flushed(s, disk).processed == s.processed + k
  {
    assert Written(|s.pending|, disk) == k;
    ExecuteLeaves(s.files, s.pending, disk, entity);
  }

  /** A flush without failures: per agent and kind, the last content queued is what the file holds. */
  lemma CleanFlushLeaves(s: Store, disk: Disk, entity: Op)
    requires forall i | 0 <= i < |s.pending| :: disk(i) == Done
    ensures HoldsLast(s.files, Flushed(s, disk).files, s.pending, entity)
    ensures Flushed(s, disk).pending == [] && Flushed(s, disk).processed == s.processed + |s.pending|
  {
    FlushLeaves(s, disk, |s.pending|, entity);
    assert s.pending[..|s.pending|] == s.pending;
  }

  /** A forced save does the same for one agent's entities and touches no other agent's file. */
  lemma ForceSaveLeaves(s: Store, a: AgentId, disk: Disk, k: nat, entity: Op)
    requires FirstFailure(|Of(s.pending, a)|, disk, k)
    ensures Leaves(s.files, ForceSaved(s, a, disk).files, Of(s.pending, a), disk, k, entity)
    ensures entity.agent != a ==>
      Read(ForceSaved(s, a, disk).files, PathOf(entity)) == Read(s.files, PathOf(entity))
    ensures ForceSaved(s, a, disk).processed == s.processed + k
  {
    var mine := Of(s.pending, a);
    assert Written(|mine|, disk) == k;
    OfBelongs(s.pending, a);
    ExecuteLeaves(s.files, mine, disk, entity);
    if entity.agent != a {
      assert NoneOf(mine[..k], entity);
    }
  }

  /** Nothing appears under a name that is no entity's. */
  lemma {:induction false} OnlyEntities(files: Files, ops: seq<Op>, p: Path)
    ensures p in Replay(files, ops) <==> p in files || exists i | 0 <= i < |ops| :: PathOf(ops[i]) == p
  {
    if ops != [] {
      var n := |ops| - 1;
      OnlyEntities(files, ops[..n], p);
      assert forall i | 0 <= i < n :: ops[..n][i] == ops[i];
    }
  }
}
