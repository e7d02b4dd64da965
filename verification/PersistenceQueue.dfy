/**
 The persistence queue on values: what one flush or forced save does to the disk and to the
 queue, write failures included, and what any schedule of them leaves on the disk.
 Source: core/src/persistence_coordinator.rs.
 */
module PersistenceQueue {
  import opened Wrappers

  type AgentId = string

  /** A file is named by its agent's directory and its own name. */
  type Path = (AgentId, string)
  type Files = map<Path, string>

  /** A queued write; `content` is the serialised entity. */
  datatype Op =
    | SaveMeta(agent: AgentId, content: string)
    | SaveTranscript(agent: AgentId, content: string)
    | SaveState(agent: AgentId, content: string)
    | SaveMessages(agent: AgentId, content: string)
    | SaveMemory(agent: AgentId, content: string)

  function FileName(op: Op): string {
    match op
    case SaveMeta(_, _) => "meta.json"
    case SaveTranscript(_, _) => "transcript.json"
    case SaveState(_, _) => "state.json"
    case SaveMessages(_, _) => "messages.json"
    case SaveMemory(_, _) => "memory.json"
  }

  function PathOf(op: Op): Path {
    (op.agent, FileName(op))
  }

  /** How one attempted write ends: a failed one may leave its own file cut short. */
  datatype Outcome = Done | Refused | Torn(left: string)

  /** The outcome of the i-th write attempted by one call. */
  type Disk = nat -> Outcome

  datatype Store = Store(files: Files, pending: seq<Op>, processed: nat)

  // ---------------------------------------------------------------- one call

  /** How many of n writes succeed before the first failure. */
  function Written(n: nat, disk: Disk): (k: nat)
    ensures k <= n
    ensures forall i | 0 <= i < k :: disk(i) == Done
    ensures k < n ==> disk(k) != Done
  {
    if n == 0 then 0
    else
      var k := Written(n - 1, disk);
      if k == n - 1 && disk(k) == Done then n else k
  }

  function Write(files: Files, op: Op): Files {
    files[PathOf(op) := op.content]
  }

  /** The files after writing ops in order. */
  function Replay(files: Files, ops: seq<Op>): Files {
    if ops == [] then files else Write(Replay(files, ops[..|ops| - 1]), ops[|ops| - 1])
  }

  /** The files after one attempt. */
  function Attempt(files: Files, op: Op, outcome: Outcome): Files {
    match outcome
    case Done => Write(files, op)
    case Refused => files
    case Torn(left) => files[PathOf(op) := left]
  }

  /** The files after writing ops up to and including the first failure. */
  function Execute(files: Files, ops: seq<Op>, disk: Disk): Files {
    var k := Written(|ops|, disk);
    if k == |ops| then Replay(files, ops) else Attempt(Replay(files, ops[..k]), ops[k], disk(k))
  }

  /** The operations that are, or are not, one agent's, in order: the stable partition. */
  function Part(ops: seq<Op>, a: AgentId, own: bool): seq<Op> {
    if ops == [] then []
    else
      var n := |ops| - 1;
      if (ops[n].agent == a) == own then Part(ops[..n], a, own) + [ops[n]] else Part(ops[..n], a, own)
  }

  function Of(ops: seq<Op>, a: AgentId): seq<Op> {
    Part(ops, a, true)
  }

  function Others(ops: seq<Op>, a: AgentId): seq<Op> {
    Part(ops, a, false)
  }

  function Flushed(s: Store, disk: Disk): Store {
    var k := Written(|s.pending|, disk);
    Store(Execute(s.files, s.pending, disk),
          if k == |s.pending| then [] else s.pending[k + 1..],
          s.processed + k)
  }

  function ForceSaved(s: Store, a: AgentId, disk: Disk): Store {
    var mine := Of(s.pending, a);
    Store(Execute(s.files, mine, disk), Others(s.pending, a), s.processed + Written(|mine|, disk))
  }

  // ---------------------------------------------------------------- what the files hold

  function Read(files: Files, p: Path): Option<string> {
    if p in files then Some(files[p]) else None
  }

  /** The content of the last operation that writes p. */
  function LastWrite(ops: seq<Op>, p: Path): Option<string> {
    if ops == [] then None
    else if PathOf(ops[|ops| - 1]) == p then Some(ops[|ops| - 1].content)
    else LastWrite(ops[..|ops| - 1], p)
  }

  /** Last write wins, file by file. */
  lemma {:induction false} ReadReplay(files: Files, ops: seq<Op>, p: Path)
    ensures Read(Replay(files, ops), p) == LastWrite(ops, p).Or(Read(files, p))
  {
    if ops != [] {
      ReadReplay(files, ops[..|ops| - 1], p);
    }
  }

  lemma {:induction false} LastWriteAppend(x: seq<Op>, y: seq<Op>, p: Path)
    ensures LastWrite(x + y, p) == LastWrite(y, p).Or(LastWrite(x, p))
  {
    if y == [] {
      assert x + y == x;
    } else {
      assert (x + y)[..|x + y| - 1] == x + y[..|y| - 1];
      LastWriteAppend(x, y[..|y| - 1], p);
    }
  }

  /** A file depends on its own agent's operations only. */
  lemma {:induction false} LastWritePart(ops: seq<Op>, a: AgentId, own: bool, p: Path)
    ensures LastWrite(Part(ops, a, own), p) == if (p.0 == a) == own then LastWrite(ops, p) else None
  {
    if ops != [] {
      var n := |ops| - 1;
      LastWritePart(ops[..n], a, own, p);
      if (ops[n].agent == a) == own {
        assert Part(ops, a, own)[..|Part(ops, a, own)| - 1] == Part(ops[..n], a, own);
      }
    }
  }

  lemma {:induction false} SameReads(f: Files, g: Files)
    requires forall p: Path :: Read(f, p) == Read(g, p)
    ensures f == g
  {
    forall p: Path
      ensures p in f <==> p in g
      ensures p in f && p in g ==> f[p] == g[p]
    {
      assert Read(f, p) == Read(g, p);
    }
    assert f.Keys == g.Keys;
  }

  /** Writing one agent's operations ahead of the others' changes nothing in the end. */
  lemma PartitionCommutes(files: Files, ops: seq<Op>, a: AgentId)
    ensures Replay(Replay(files, Of(ops, a)), Others(ops, a)) == Replay(files, ops)
  {
    var early := Replay(files, Of(ops, a));
    forall p: Path
      ensures Read(Replay(early, Others(ops, a)), p) == Read(Replay(files, ops), p)
    {
      ReadReplay(early, Others(ops, a), p);
      ReadReplay(files, Of(ops, a), p);
      ReadReplay(files, ops, p);
      LastWritePart(ops, a, true, p);
      LastWritePart(ops, a, false, p);
    }
    SameReads(Replay(early, Others(ops, a)), Replay(files, ops));
  }

  /** The two parts hold every operation once. */
  lemma {:induction false} PartitionKeepsAll(ops: seq<Op>, a: AgentId)
    ensures multiset(Of(ops, a)) + multiset(Others(ops, a)) == multiset(ops)
  {
    if ops != [] {
      var n := |ops| - 1;
      assert ops == ops[..n] + [ops[n]];
      PartitionKeepsAll(ops[..n], a);
    }
  }

  predicate Healthy(disk: Disk, n: nat) {
    Written(n, disk) == n
  }

  /**
   With no failing write, forcing one agent's saves first and flushing afterwards ends in
   exactly the state of one flush: same files, empty queue, same count.
   */
  lemma ForceSaveThenFlush(s: Store, a: AgentId, d0: Disk, d1: Disk, d2: Disk)
    requires Healthy(d0, |Of(s.pending, a)|)
    requires Healthy(d1, |ForceSaved(s, a, d0).pending|)
    requires Healthy(d2, |s.pending|)
    ensures Flushed(ForceSaved(s, a, d0), d1) == Flushed(s, d2)
    ensures Flushed(s, d2) == Store(Replay(s.files, s.pending), [], s.processed + |s.pending|)
  {
    PartitionCommutes(s.files, s.pending, a);
    PartitionKeepsAll(s.pending, a);
    assert |s.pending| == |multiset(s.pending)|
        == |multiset(Of(s.pending, a))| + |multiset(Others(s.pending, a))|;
  }

  // ---------------------------------------------------------------- any schedule

  datatype Step =
    | Queue(ops: seq<Op>)
    | Flush(disk: Disk)
    | ForceSave(agent: AgentId, disk: Disk)

  /**
   A store with its history: all that was queued, all that was written, in that order, and
   what a failing call dropped.
   */
  datatype World = World(store: Store, queued: seq<Op>, log: seq<Op>, lost: seq<Op>)

  function QueueOn(w: World, ops: seq<Op>): World {
    w.(store := w.store.(pending := w.store.pending + ops), queued := w.queued + ops)
  }

  /** A failing flush drops the operation that failed and keeps the rest queued. */
  function FlushOn(w: World, disk: Disk): World {
    var ops := w.store.pending;
    var k := Written(|ops|, disk);
    World(Flushed(w.store, disk), w.queued, w.log + ops[..k],
          w.lost + if k == |ops| then [] else [ops[k]])
  }

  /** A failing forced save drops the operation that failed and all after it. */
  function ForceSaveOn(w: World, a: AgentId, disk: Disk): World {
    var mine := Of(w.store.pending, a);
    var k := Written(|mine|, disk);
    World(ForceSaved(w.store, a, disk), w.queued, w.log + mine[..k], w.lost + mine[k..])
  }

  function Act(w: World, step: Step): World {
    match step
    case Queue(ops) => QueueOn(w, ops)
    case Flush(disk) => FlushOn(w, disk)
    case ForceSave(a, disk) => ForceSaveOn(w, a, disk)
  }

  function Run(files: Files, steps: seq<Step>): World {
    if steps == [] then World(Store(files, [], 0), [], [], [])
    else Act(Run(files, steps[..|steps| - 1]), steps[|steps| - 1])
  }

  // ---------------------------------------------------------------- the invariant

  /** Nothing queued is unaccounted for, and the counter counts the writes. */
  ghost predicate Accounted(w: World) {
    && multiset(w.log) + multiset(w.store.pending) + multiset(w.lost) == multiset(w.queued)
    && w.store.processed == |w.log|
  }

  /** One agent's writes happened in its queueing order, and its files show exactly them. */
  ghost predicate AgentIntact(files: Files, w: World, a: AgentId) {
    && Of(w.log, a) + Of(w.store.pending, a) == Of(w.queued, a)
    && forall p: Path | p.0 == a ::
         Read(w.store.files, p) == LastWrite(w.log, p).Or(Read(files, p))
  }

  /** Every agent none of whose operations was lost is intact, whatever befell the others. */
  ghost predicate Inv(files: Files, w: World) {
    && Accounted(w)
    && forall a: AgentId :: Of(w.lost, a) == [] ==> AgentIntact(files, w, a)
  }

  lemma {:induction false} OfAppend(x: seq<Op>, y: seq<Op>, a: AgentId)
    ensures Of(x + y, a) == Of(x, a) + Of(y, a)
  {
    if y == [] {
      assert x + y == x;
    } else {
      var n := |y| - 1;
      assert (x + y)[..|x + y| - 1] == x + y[..n];
      OfAppend(x, y[..n], a);
      assert Of(x, a) + (Of(y[..n], a) + [y[n]]) == Of(x, a) + Of(y[..n], a) + [y[n]];
    }
  }

  lemma {:induction false} OfOf(ops: seq<Op>, a: AgentId, b: AgentId)
    requires forall i | 0 <= i < |ops| :: ops[i].agent == b
    ensures Of(ops, a) == if a == b then ops else []
    ensures Others(ops, b) == []
  {
    if ops != [] {
      OfOf(ops[..|ops| - 1], a, b);
    }
  }

  lemma {:induction false} OfBelongs(ops: seq<Op>, a: AgentId)
    ensures forall i | 0 <= i < |Of(ops, a)| :: Of(ops, a)[i].agent == a
  {
    if ops != [] {
      var n := |ops| - 1;
      OfBelongs(ops[..n], a);
      assert Of(ops, a) == if ops[n].agent == a then Of(ops[..n], a) + [ops[n]] else Of(ops[..n], a);
    }
  }

  lemma {:induction false} OfOthers(ops: seq<Op>, a: AgentId, b: AgentId)
    ensures Of(Others(ops, b), a) == if a == b then [] else Of(ops, a)
  {
    if ops != [] {
      var n := |ops| - 1;
      OfOthers(ops[..n], a, b);
      if ops[n].agent != b {
        OfAppend(Others(ops[..n], b), [ops[n]], a);
        assert [ops[n]][..0] == [];
      }
    }
  }

  /** What a file reads after a call, unless it is the file whose write failed. */
  lemma ExecuteReads(files: Files, ops: seq<Op>, disk: Disk, p: Path)
    requires var k := Written(|ops|, disk); k < |ops| ==> PathOf(ops[k]) != p
    ensures var k := Written(|ops|, disk);
            Read(Execute(files, ops, disk), p) == LastWrite(ops[..k], p).Or(Read(files, p))
  {
    var k := Written(|ops|, disk);
    ReadReplay(files, ops[..k], p);
    if k == |ops| {
      assert ops[..k] == ops;
    }
  }

  lemma QueueKeepsAgent(files: Files, w: World, ops: seq<Op>, a: AgentId)
    requires AgentIntact(files, w, a)
    ensures AgentIntact(files, QueueOn(w, ops), a)
  {
    OfAppend(w.store.pending, ops, a);
    OfAppend(w.queued, ops, a);
    assert Of(w.log, a) + Of(w.store.pending, a) + Of(ops, a)
        == Of(w.log, a) + (Of(w.store.pending, a) + Of(ops, a));
  }

  lemma QueueKeeps(files: Files, w: World, ops: seq<Op>)
    requires Inv(files, w)
    ensures Inv(files, QueueOn(w, ops))
  {
    forall a: AgentId | Of(w.lost, a) == []
      ensures AgentIntact(files, QueueOn(w, ops), a)
    {
      QueueKeepsAgent(files, w, ops, a);
    }
  }

  /** A call that executes ops, an agent none of whose operations it loses. */
  lemma FilesStayIntact(files: Files, w: World, ops: seq<Op>, disk: Disk, a: AgentId)
    requires AgentIntact(files, w, a)
    requires var k := Written(|ops|, disk); k < |ops| ==> ops[k].agent != a
    ensures forall p: Path | p.0 == a ::
      var k := Written(|ops|, disk);
      Read(Execute(w.store.files, ops, disk), p)
        == LastWrite(w.log + ops[..k], p).Or(Read(files, p))
  {
    var k := Written(|ops|, disk);
    forall p: Path | p.0 == a
      ensures Read(Execute(w.store.files, ops, disk), p)
           == LastWrite(w.log + ops[..k], p).Or(Read(files, p))
    {
      ExecuteReads(w.store.files, ops, disk, p);
      LastWriteAppend(w.log, ops[..k], p);
    }
  }

  /** Moving a stretch of the queue to the log, and one operation to the losses. */
  lemma FlushOrder(log: seq<Op>, done: seq<Op>, failed: seq<Op>, rest: seq<Op>, lost: seq<Op>, a: AgentId)
    requires |failed| <= 1 && Of(lost + failed, a) == []
    ensures Of(lost, a) == []
    ensures failed != [] ==> failed[0].agent != a
    ensures Of(log + done, a) + Of(rest, a) == Of(log, a) + Of(done + failed + rest, a)
  {
    OfAppend(lost, failed, a);
    OfAppend(log, done, a);
    OfAppend(done + failed, rest, a);
    OfAppend(done, failed, a);
    if failed != [] && failed[0].agent == a {
      OfOf(failed, a, a);
      assert false;
    }
    assert Of(done, a) + [] == Of(done, a);
    assert Of(log, a) + Of(done, a) + Of(rest, a) == Of(log, a) + (Of(done, a) + Of(rest, a));
  }

  lemma FlushKeepsAgent(files: Files, w: World, disk: Disk, a: AgentId)
    requires Of(w.lost, a) == [] ==> AgentIntact(files, w, a)
    requires Of(FlushOn(w, disk).lost, a) == []
    ensures AgentIntact(files, FlushOn(w, disk), a)
  {
    var ops := w.store.pending;
    var k := Written(|ops|, disk);
    var failed := if k == |ops| then [] else [ops[k]];
    var rest := if k == |ops| then [] else ops[k + 1..];
    assert ops == ops[..k] + failed + rest;
    FlushOrder(w.log, ops[..k], failed, rest, w.lost, a);
    FilesStayIntact(files, w, ops, disk, a);
  }

  lemma FlushKeeps(files: Files, w: World, disk: Disk)
    requires Inv(files, w)
    ensures Inv(files, FlushOn(w, disk))
  {
    var ops := w.store.pending;
    var k := Written(|ops|, disk);
    if k == |ops| {
      assert ops[..k] == ops;
    } else {
      assert ops == ops[..k] + [ops[k]] + ops[k + 1..];
    }
    forall a: AgentId | Of(FlushOn(w, disk).lost, a) == []
      ensures AgentIntact(files, FlushOn(w, disk), a)
    {
      FlushKeepsAgent(files, w, disk, a);
    }
  }

  /** Moving one agent's queued operations to the log, up to some point, and the rest to the losses. */
  lemma ForceSaveOrder(log: seq<Op>, pending: seq<Op>, lost: seq<Op>, b: AgentId, k: nat, a: AgentId)
    requires k <= |Of(pending, b)| && Of(lost + Of(pending, b)[k..], a) == []
    ensures Of(lost, a) == []
    ensures k < |Of(pending, b)| ==> b != a
    ensures Of(log + Of(pending, b)[..k], a) + Of(Others(pending, b), a) == Of(log, a) + Of(pending, a)
  {
    var mine := Of(pending, b);
    OfBelongs(pending, b);
    OfAppend(lost, mine[k..], a);
    OfOf(mine[k..], a, b);
    OfOf(mine[..k], a, b);
    OfAppend(log, mine[..k], a);
    OfOthers(pending, a, b);
    if a == b {
      assert mine[..k] == mine;
    }
  }

  lemma ForceSaveKeepsAgent(files: Files, w: World, b: AgentId, disk: Disk, a: AgentId)
    requires Of(w.lost, a) == [] ==> AgentIntact(files, w, a)
    requires Of(ForceSaveOn(w, b, disk).lost, a) == []
    ensures AgentIntact(files, ForceSaveOn(w, b, disk), a)
  {
    var mine := Of(w.store.pending, b);
    var k := Written(|mine|, disk);
    OfBelongs(w.store.pending, b);
    ForceSaveOrder(w.log, w.store.pending, w.lost, b, k, a);
    FilesStayIntact(files, w, mine, disk, a);
  }

  lemma ForceSaveAccounted(w: World, b: AgentId, disk: Disk)
    requires Accounted(w)
    ensures Accounted(ForceSaveOn(w, b, disk))
  {
    var mine := Of(w.store.pending, b);
    var k := Written(|mine|, disk);
    PartitionKeepsAll(w.store.pending, b);
    SplitKeepsAll(mine, k);
    assert multiset(w.log + mine[..k]) == multiset(w.log) + multiset(mine[..k]);
    assert multiset(w.lost + mine[k..]) == multiset(w.lost) + multiset(mine[k..]);
  }

  lemma SplitKeepsAll(ops: seq<Op>, k: nat)
    requires k <= |ops|
    ensures multiset(ops[..k]) + multiset(ops[k..]) == multiset(ops)
  {
    assert ops == ops[..k] + ops[k..];
  }

  lemma ForceSaveKeeps(files: Files, w: World, b: AgentId, disk: Disk)
    requires Inv(files, w)
    ensures Inv(files, ForceSaveOn(w, b, disk))
  {
    ForceSaveAccounted(w, b, disk);
    var v := ForceSaveOn(w, b, disk);
    forall a: AgentId | Of(v.lost, a) == []
      ensures AgentIntact(files, v, a)
    {
      ForceSaveKeepsAgent(files, w, b, disk, a);
    }
  }

  lemma {:induction false} RunKeepsInv(files: Files, steps: seq<Step>)
    ensures Inv(files, Run(files, steps))
  {
    if steps != [] {
      var w := Run(files, steps[..|steps| - 1]);
      RunKeepsInv(files, steps[..|steps| - 1]);
      match steps[|steps| - 1]
      case Queue(ops) => QueueKeeps(files, w, ops);
      case Flush(disk) => FlushKeeps(files, w, disk);
      case ForceSave(a, disk) => ForceSaveKeeps(files, w, a, disk);
    }
  }

  // ---------------------------------------------------------------- what it gives

  /**
   For every schedule, and any failures of other agents' writes: completing the queue would
   give an agent that lost nothing exactly the files of writing all it ever queued, in order.
   */
  lemma FailuresAreIsolated(files: Files, steps: seq<Step>, p: Path)
    requires Of(Run(files, steps).lost, p.0) == []
    ensures var w := Run(files, steps);
            Read(Replay(w.store.files, w.store.pending), p) == Read(Replay(files, w.queued), p)
  {
    RunKeepsInv(files, steps);
    var w := Run(files, steps);
    var a := p.0;
    assert AgentIntact(files, w, a);
    ReadReplay(w.store.files, w.store.pending, p);
    ReadReplay(files, w.queued, p);
    LastWritePart(w.log, a, true, p);
    LastWritePart(w.store.pending, a, true, p);
    LastWritePart(w.queued, a, true, p);
    LastWriteAppend(Of(w.log, a), Of(w.store.pending, a), p);
  }

  /** With nothing lost, the disk and the queue together always amount to the whole history. */
  lemma ScheduleIsReplay(files: Files, steps: seq<Step>)
    requires Run(files, steps).lost == []
    ensures var w := Run(files, steps);
            && Replay(w.store.files, w.store.pending) == Replay(files, w.queued)
            && w.store.processed + |w.store.pending| == |w.queued|
            && (w.store.pending == [] ==> w.store.files == Replay(files, w.queued))
  {
    var w := Run(files, steps);
    RunKeepsInv(files, steps);
    forall p: Path
      ensures Read(Replay(w.store.files, w.store.pending), p) == Read(Replay(files, w.queued), p)
    {
      FailuresAreIsolated(files, steps, p);
    }
    SameReads(Replay(w.store.files, w.store.pending), Replay(files, w.queued));
    assert |multiset(w.log)| + |multiset(w.store.pending)| == |multiset(w.queued)|;
  }

  /** How much one call loses: nothing exactly when every write it attempts succeeds. */
  lemma LossOfOneCall(w: World, a: AgentId, disk: Disk)
    ensures FlushOn(w, disk).lost == w.lost <==> Healthy(disk, |w.store.pending|)
    ensures |FlushOn(w, disk).lost| <= |w.lost| + 1
    ensures ForceSaveOn(w, a, disk).lost == w.lost <==> Healthy(disk, |Of(w.store.pending, a)|)
    ensures |ForceSaveOn(w, a, disk).lost|
         == |w.lost| + |Of(w.store.pending, a)| - Written(|Of(w.store.pending, a)|, disk)
  {
  }

  /**
   Where the two calls differ: with the same first write refused, a flush still holds the
   second operation, a forced save has dropped both.
   */
  lemma ForceSaveDropsTheRest()
    ensures var ops := [SaveMeta("agent_001", "m"), SaveState("agent_001", "s")];
            var w := QueueOn(Run(map[], []), ops);
            var disk: Disk := (i: nat) => if i == 0 then Refused else Done;
            && FlushOn(w, disk).store.pending == [ops[1]]
            && FlushOn(w, disk).lost == [ops[0]]
            && ForceSaveOn(w, "agent_001", disk).store.pending == []
            && ForceSaveOn(w, "agent_001", disk).lost == ops
  {
    var ops := [SaveMeta("agent_001", "m"), SaveState("agent_001", "s")];
    var w := QueueOn(Run(map[], []), ops);
    var disk: Disk := (i: nat) => if i == 0 then Refused else Done;
    assert w.store.pending == ops;
    OfOf(ops, "agent_001", "agent_001");
    assert Written(2, disk) == 0;
  }
}
