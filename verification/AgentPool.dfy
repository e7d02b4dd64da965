/**
 Pool membership and identity: fresh ids across spawning, restoring and removing agents, the
 overview agent at index 0, and the capacity.
 */
module AgentPool {
  import opened Search
  import opened Wrappers
  import opened AgentNaming
  import SlotStatus
  import Transcript

  datatype ProviderKind = MockKind | ClaudeKind | CodexKind | AcpKind | UnknownKind

  datatype ProviderType = Mock | Claude | Codex | Opencode

  datatype Role = ProductOwner | ScrumMaster | Developer

  datatype Worktree = Worktree(path: Option<string>, branch: Option<string>, id: Option<string>)

  datatype Slot = Slot(
    agentId: string,
    codename: string,
    providerType: ProviderType,
    role: Role,
    status: SlotStatus.Status,
    session: Option<string>,
    transcript: seq<Transcript.Entry>,
    task: Option<string>,
    worktree: Worktree)

  datatype Pool = Pool(slots: seq<Slot>, maxSlots: nat, next: nat, deciders: set<string>)

  const OVERVIEW := "OVERVIEW"

  function Empty(maxSlots: nat): Pool { Pool([], maxSlots, 1, {}) }

  function TypeOf(kind: ProviderKind): ProviderType {
    match kind case ClaudeKind => Claude case CodexKind => Codex case _ => Mock
  }

  function NewSlot(id: string, codename: string, t: ProviderType, role: Role): Slot {
    Slot(id, codename, t, role, SlotStatus.Idle, None, [], None, Worktree(None, None, None))
  }

  // ----- Operations -----

  datatype Outcome<+T> = Outcome(pool: Pool, result: Result<T, string>)

  function NotFound(id: string): string { "Agent " + id + " not found in pool" }

  function AlreadyExists(id: string): string { "Agent " + id + " already exists in pool" }

  predicate HasId(slots: seq<Slot>, id: string) {
    exists i | 0 <= i < |slots| :: slots[i].agentId == id
  }

  predicate HasOwner(slots: seq<Slot>) {
    exists i | 0 <= i < |slots| :: slots[i].role.ProductOwner?
  }

  /** The first slot with an id. */
  function IndexOf(slots: seq<Slot>, id: string): (r: Option<nat>)
    ensures r.Some? ==> r.value < |slots| && slots[r.value].agentId == id && !HasId(slots[..r.value], id)
    ensures r.None? <==> !HasId(slots, id)
  {
    FirstIndex(slots, (s: Slot) => s.agentId == id)
  }

  /** A spawned worker takes the next index, and a decision agent unless it is a mock. */
  function SpawnWorker(p: Pool, kind: ProviderKind): Outcome<string> {
    if |p.slots| >= p.maxSlots then Outcome(p, Err("Agent pool is full"))
    else
      var id := AgentIdOf(p.next);
      var slot := NewSlot(id, Codename(p.next), TypeOf(kind), Developer);
      Outcome(Pool(p.slots + [slot], p.maxSlots, p.next + 1, if kind.MockKind? then p.deciders else p.deciders + {id}), Ok(id))
  }

  /** A worktree spawn whose git steps fail has used up its index. */
  function SpawnFailing(p: Pool): Pool {
    if |p.slots| >= p.maxSlots then p else p.(next := p.next + 1)
  }

  function SpawnOverview(p: Pool, kind: ProviderKind): Outcome<string> {
    if HasOwner(p.slots) then Outcome(p, Err("OVERVIEW agent already exists"))
    else if |p.slots| >= p.maxSlots then Outcome(p, Err("Agent pool is full"))
    else
      var slot := NewSlot(OVERVIEW, OVERVIEW, TypeOf(kind), ProductOwner);
      Outcome(p.(slots := [slot] + p.slots, deciders := if kind.MockKind? then p.deciders else p.deciders + {OVERVIEW}),
              Ok(OVERVIEW))
  }

  function MaxIndex(slots: seq<Slot>): (r: Option<nat>)
    ensures r.Some? ==> exists i | 0 <= i < |slots| :: ParseAgentIndex(slots[i].agentId) == r
  {
    if slots == [] then None
    else
      var rest := MaxIndex(slots[1..]);
      match ParseAgentIndex(slots[0].agentId)
      case None => rest
      case Some(k) => if rest.Some? && rest.value > k then rest else Some(k)
  }

  function Max(a: nat, b: nat): nat { if a >= b then a else b }

  /** The counter moves past the index of the last slot, or past every index if that one has none. */
  function SyncedNext(slots: seq<Slot>, next: nat): nat
    requires slots != []
  {
    match ParseAgentIndex(slots[|slots| - 1].agentId)
    case Some(k) => Max(next, k + 1)
    case None =>
      match MaxIndex(slots)
      case Some(k) => Max(next, k + 1)
      case None => next
  }

  predicate WantsDecider(t: ProviderType) { t.Claude? || t.Codex? }

  function RestoreSlot(p: Pool, slot: Slot): Outcome<()> {
    if |p.slots| >= p.maxSlots then Outcome(p, Err("Agent pool is full"))
    else if HasId(p.slots, slot.agentId) then Outcome(p, Err(AlreadyExists(slot.agentId)))
    else if slot.role.ProductOwner? && HasOwner(p.slots) then Outcome(p, Err("OVERVIEW agent already exists"))
    else
      var slots := if slot.role.ProductOwner? then [slot] + p.slots else p.slots + [slot];
      Outcome(Pool(slots, p.maxSlots, SyncedNext(slots, p.next),
                   if WantsDecider(slot.providerType) then p.deciders + {slot.agentId} else p.deciders), Ok(()))
  }

  const STOP_REASON := "user requested"

  function StopAgent(p: Pool, id: string): Outcome<nat> {
    match IndexOf(p.slots, id)
    case None => Outcome(p, Err(NotFound(id)))
    case Some(i) =>
      var stopped := SlotStatus.Stopped(STOP_REASON);
      if SlotStatus.CanTransition(p.slots[i].status, stopped) then
        Outcome(p.(slots := p.slots[i := p.slots[i].(status := stopped)], deciders := p.deciders - {id}), Ok(i))
      else Outcome(p, Err("Failed to stop agent"))
  }

  function RemoveAgent(p: Pool, id: string): Outcome<()> {
    match IndexOf(p.slots, id)
    case None => Outcome(p, Err(NotFound(id)))
    case Some(i) =>
      if SlotStatus.IsTerminal(p.slots[i].status) then
        Outcome(p.(slots := p.slots[..i] + p.slots[i + 1..], deciders := p.deciders - {id}), Ok(()))
      else Outcome(p, Err("Cannot remove agent (must be stopped)"))
  }

  // ----- Runs -----

  datatype Step =
    | Spawn(kind: ProviderKind)
    | SpawnFails
    | Overview(kind: ProviderKind)
    | Restore(slot: Slot)
    | StopStep(id: string)
    | Remove(id: string)
    | Work(index: nat, status: SlotStatus.Status, session: Option<string>, transcript: seq<Transcript.Entry>,
           task: Option<string>, worktree: Worktree)

  /** A pool with its history: the indices generate_agent_id has used, and every id ever present. */
  datatype History = History(pool: Pool, used: seq<nat>, seen: set<string>)

  function Ids(slots: seq<Slot>): set<string> { set i | 0 <= i < |slots| :: slots[i].agentId }

  function Act(h: History, step: Step): History {
    var p := h.pool;
    match step
    case Spawn(kind) =>
      var q := SpawnWorker(p, kind).pool;
      History(q, if q == p then h.used else h.used + [p.next], h.seen + Ids(q.slots))
    case SpawnFails =>
      var q := SpawnFailing(p);
      History(q, if q == p then h.used else h.used + [p.next], h.seen)
    case Overview(kind) => var q := SpawnOverview(p, kind).pool; History(q, h.used, h.seen + Ids(q.slots))
    case Restore(slot) => var q := RestoreSlot(p, slot).pool; History(q, h.used, h.seen + Ids(q.slots))
    case StopStep(id) => h.(pool := StopAgent(p, id).pool)
    case Remove(id) => h.(pool := RemoveAgent(p, id).pool)
    case Work(i, status, session, transcript, task, worktree) =>
      if i < |p.slots| then
        h.(pool := p.(slots := p.slots[i := p.slots[i].(status := status, session := session, transcript := transcript,
                                                        task := task, worktree := worktree)]))
      else h
  }

  function Run(h: History, steps: seq<Step>): History
    decreases |steps|
  {
    if steps == [] then h else Run(Act(h, steps[0]), steps[1..])
  }

  /** Slots given back from a snapshot are the overview's exactly when they carry its id. */
  predicate Sound(step: Step) {
    step.Restore? ==> (step.slot.role.ProductOwner? <==> step.slot.agentId == OVERVIEW)
  }

  // ----- The identity invariant -----

  predicate DistinctIds(slots: seq<Slot>) {
    forall i, j | 0 <= i < j < |slots| :: slots[i].agentId != slots[j].agentId
  }

  predicate OverviewFirst(slots: seq<Slot>) {
    forall i | 0 <= i < |slots| ::
      && (slots[i].role.ProductOwner? <==> slots[i].agentId == OVERVIEW)
      && (slots[i].role.ProductOwner? ==> i == 0)
  }

  predicate IndexBelow(id: string, next: nat) {
    ParseAgentIndex(id).Some? ==> ParseAgentIndex(id).value < next
  }

  predicate SlotsInv(slots: seq<Slot>, next: nat) {
    && DistinctIds(slots)
    && OverviewFirst(slots)
    && forall i | 0 <= i < |slots| :: IndexBelow(slots[i].agentId, next)
  }

  predicate PoolInv(p: Pool) {
    && SlotsInv(p.slots, p.next)
    && |p.slots| <= p.maxSlots
    && p.deciders <= Ids(p.slots)
  }

  predicate Increasing(xs: seq<nat>, bound: nat) {
    && (forall i, j | 0 <= i < j < |xs| :: xs[i] < xs[j])
    && (forall i | 0 <= i < |xs| :: xs[i] < bound)
  }

  predicate HistoryInv(h: History) {
    && PoolInv(h.pool)
    && Increasing(h.used, h.pool.next)
    && Ids(h.pool.slots) <= h.seen
    && forall id | id in h.seen :: IndexBelow(id, h.pool.next)
  }

  /** The id about to be generated has never been in the pool. */
  lemma NextIdIsNew(h: History)
    requires HistoryInv(h) && h.pool.next <= MAX_INDEX
    ensures AgentIdOf(h.pool.next) !in h.seen && AgentIdOf(h.pool.next) !in Ids(h.pool.slots)
  {
    ParseAgentId(h.pool.next);
  }

  lemma OverviewHasNoIndex()
    ensures ParseAgentIndex(OVERVIEW) == None
  {
  }

  lemma AppendSlot(slots: seq<Slot>, slot: Slot, next: nat, later: nat)
    requires SlotsInv(slots, next) && next <= later && IndexBelow(slot.agentId, later)
    requires !HasId(slots, slot.agentId) && !slot.role.ProductOwner? && slot.agentId != OVERVIEW
    ensures SlotsInv(slots + [slot], later)
    ensures Ids(slots + [slot]) == Ids(slots) + {slot.agentId}
  {
    var all := slots + [slot];
    assert all[|slots|] == slot && forall i | 0 <= i < |slots| :: all[i] == slots[i];
    forall id | id in Ids(slots) ensures id in Ids(all) {
      var i :| 0 <= i < |slots| && slots[i].agentId == id;
      assert all[i].agentId == id;
    }
  }

  lemma PrependSlot(slots: seq<Slot>, slot: Slot, next: nat, later: nat)
    requires SlotsInv(slots, next) && next <= later && IndexBelow(slot.agentId, later)
    requires !HasOwner(slots) && slot.role.ProductOwner? && slot.agentId == OVERVIEW
    ensures SlotsInv([slot] + slots, later)
    ensures Ids([slot] + slots) == Ids(slots) + {slot.agentId}
  {
    var all := [slot] + slots;
    assert all[0] == slot && forall i | 0 < i < |all| :: all[i] == slots[i - 1];
    forall id | id in Ids(slots) ensures id in Ids(all) {
      var i :| 0 <= i < |slots| && slots[i].agentId == id;
      assert all[i + 1].agentId == id;
    }
  }

  lemma DeleteSlot(slots: seq<Slot>, k: nat, next: nat)
    requires SlotsInv(slots, next) && k < |slots|
    ensures SlotsInv(slots[..k] + slots[k + 1..], next)
    ensures Ids(slots[..k] + slots[k + 1..]) == Ids(slots) - {slots[k].agentId}
  {
    var rest := slots[..k] + slots[k + 1..];
    assert forall i | 0 <= i < |rest| :: rest[i] == slots[if i < k then i else i + 1];
    forall id | id in Ids(slots) && id != slots[k].agentId ensures id in Ids(rest) {
      var i :| 0 <= i < |slots| && slots[i].agentId == id;
      assert rest[if i < k then i else i - 1].agentId == id;
    }
  }

  /** Changing a slot's work but neither its id nor its role. */
  lemma UpdateSlot(slots: seq<Slot>, k: nat, slot: Slot, next: nat)
    requires SlotsInv(slots, next) && k < |slots|
    requires slot.agentId == slots[k].agentId && slot.role == slots[k].role
    ensures SlotsInv(slots[k := slot], next)
    ensures Ids(slots[k := slot]) == Ids(slots)
  {
    var all := slots[k := slot];
    assert forall i | 0 <= i < |slots| :: all[i].agentId == slots[i].agentId && all[i].role == slots[i].role;
  }

  /** A developer slot under an id that parses to the next index, whatever else it holds. */
  lemma NewSlotKeepsInv(h: History, slot: Slot, deciders: set<string>)
    requires HistoryInv(h) && |h.pool.slots| < h.pool.maxSlots
    requires ParseAgentIndex(slot.agentId) == Some(h.pool.next) && slot.agentId != OVERVIEW && slot.role.Developer?
    requires deciders <= h.pool.deciders + {slot.agentId}
    ensures var slots := h.pool.slots + [slot];
      HistoryInv(History(Pool(slots, h.pool.maxSlots, h.pool.next + 1, deciders), h.used + [h.pool.next], h.seen + Ids(slots)))
  {
    AppendSlot(h.pool.slots, slot, h.pool.next, h.pool.next + 1);
  }

  lemma SpawnKeepsInv(h: History, kind: ProviderKind)
    requires HistoryInv(h) && h.pool.next <= MAX_INDEX
    ensures HistoryInv(Act(h, Spawn(kind)))
  {
    var p := h.pool;
    if |p.slots| < p.maxSlots {
      var q := SpawnWorker(p, kind).pool;
      ParseAgentId(p.next);
      OverviewHasNoIndex();
      NewSlotKeepsInv(h, q.slots[|p.slots|], q.deciders);
    }
  }

  lemma OverviewKeepsInv(h: History, kind: ProviderKind)
    requires HistoryInv(h)
    ensures HistoryInv(Act(h, Overview(kind)))
  {
    var p := h.pool;
    if SpawnOverview(p, kind).result.Ok? {
      OverviewHasNoIndex();
      PrependSlot(p.slots, NewSlot(OVERVIEW, OVERVIEW, TypeOf(kind), ProductOwner), p.next, p.next);
    }
  }

  /** After a restore the counter is past the restored index and has not gone back. */
  lemma SyncedNextCovers(p: Pool, slot: Slot)
    requires slot.role.ProductOwner? ==> slot.agentId == OVERVIEW
    ensures var slots := if slot.role.ProductOwner? then [slot] + p.slots else p.slots + [slot];
      SyncedNext(slots, p.next) >= p.next && IndexBelow(slot.agentId, SyncedNext(slots, p.next))
  {
  }

  lemma RestoreKeepsInv(h: History, slot: Slot)
    requires HistoryInv(h) && Sound(Restore(slot))
    ensures HistoryInv(Act(h, Restore(slot)))
  {
    var p, q := h.pool, RestoreSlot(h.pool, slot).pool;
    if RestoreSlot(p, slot).result.Ok? {
      SyncedNextCovers(p, slot);
      if slot.role.ProductOwner? {
        PrependSlot(p.slots, slot, p.next, q.next);
      } else {
        AppendSlot(p.slots, slot, p.next, q.next);
      }
    }
  }

  lemma StopKeepsInv(h: History, id: string)
    requires HistoryInv(h)
    ensures HistoryInv(Act(h, StopStep(id)))
  {
    var p := h.pool;
    if StopAgent(p, id).result.Ok? {
      var k := IndexOf(p.slots, id).value;
      UpdateSlot(p.slots, k, p.slots[k].(status := SlotStatus.Stopped(STOP_REASON)), p.next);
    }
  }

  lemma RemoveKeepsInv(h: History, id: string)
    requires HistoryInv(h)
    ensures HistoryInv(Act(h, Remove(id)))
  {
    var p := h.pool;
    if RemoveAgent(p, id).result.Ok? {
      DeleteSlot(p.slots, IndexOf(p.slots, id).value, p.next);
    }
  }

  lemma StepKeepsInv(h: History, step: Step)
    requires HistoryInv(h) && Sound(step) && h.pool.next <= MAX_INDEX
    ensures HistoryInv(Act(h, step))
  {
    match step
    case Spawn(kind) => SpawnKeepsInv(h, kind);
    case SpawnFails =>
    case Overview(kind) => OverviewKeepsInv(h, kind);
    case Restore(slot) => RestoreKeepsInv(h, slot);
    case StopStep(id) => StopKeepsInv(h, id);
    case Remove(id) => RemoveKeepsInv(h, id);
    case Work(k, _, _, _, _, _) =>
      if k < |h.pool.slots| {
        UpdateSlot(h.pool.slots, k, Act(h, step).pool.slots[k], h.pool.next);
      }
  }

  lemma {:induction false} NextNeverDecreases(h: History, steps: seq<Step>)
    ensures Run(h, steps).pool.next >= h.pool.next
    decreases |steps|
  {
    if steps != [] {
      NextNeverDecreases(Act(h, steps[0]), steps[1..]);
    }
  }

  /**
   Identity over every run of spawning, restoring, stopping, removing and working, as long as
   the 64-bit counter has not overflowed.
   */
  lemma {:induction false} IdentityInvariant(h: History, steps: seq<Step>)
    requires HistoryInv(h) && forall s | s in steps :: Sound(s)
    requires Run(h, steps).pool.next <= MAX_INDEX
    ensures HistoryInv(Run(h, steps))
    decreases |steps|
  {
    if steps != [] {
      var g := Act(h, steps[0]);
      NextNeverDecreases(g, steps[1..]);
      NextNeverDecreases(h, [steps[0]]);
      assert Run(h, [steps[0]]) == Run(g, [steps[0]][1..]) == g;
      assert steps[0] in steps;
      StepKeepsInv(h, steps[0]);
      IdentityInvariant(g, steps[1..]);
    }
  }

  /** A new pool; its counter starts at 1, or after the last index found among old worktrees. */
  predicate Fresh(h: History) {
    h.pool.slots == [] && h.pool.deciders == {} && h.used == [] && h.seen == {}
  }

  /** What the invariant says of a pool started empty. */
  lemma PoolIdentity(start: History, steps: seq<Step>)
    requires Fresh(start) && forall s | s in steps :: Sound(s)
    requires Run(start, steps).pool.next <= MAX_INDEX
    ensures var h := Run(start, steps);
      && DistinctIds(h.pool.slots) && OverviewFirst(h.pool.slots) && h.pool.deciders <= Ids(h.pool.slots)
      && (forall i, j | 0 <= i < j < |h.used| :: AgentIdOf(h.used[i]) != AgentIdOf(h.used[j]))
      && AgentIdOf(h.pool.next) !in h.seen
  {
    IdentityInvariant(start, steps);
    var h := Run(start, steps);
    NextIdIsNew(h);
    forall i, j | 0 <= i < j < |h.used| ensures AgentIdOf(h.used[i]) != AgentIdOf(h.used[j]) {
      if AgentIdOf(h.used[i]) == AgentIdOf(h.used[j]) {
        AgentIdInjective(h.used[i], h.used[j]);
      }
    }
  }

  lemma {:induction false} CapacityIsFixed(h: History, steps: seq<Step>)
    requires |h.pool.slots| <= h.pool.maxSlots
    ensures |Run(h, steps).pool.slots| <= Run(h, steps).pool.maxSlots == h.pool.maxSlots
    decreases |steps|
  {
    if steps != [] {
      CapacityIsFixed(Act(h, steps[0]), steps[1..]);
    }
  }

  /**
   The condition on restored slots is needed: the overview can be spawned next to a slot that
   already carries its id, and the ids stay distinct exactly when there is none.
   */
  lemma OverviewCollides(p: Pool, kind: ProviderKind)
    requires DistinctIds(p.slots) && SpawnOverview(p, kind).result.Ok?
    ensures DistinctIds(SpawnOverview(p, kind).pool.slots) <==> !HasId(p.slots, OVERVIEW)
  {
    var q := SpawnOverview(p, kind).pool;
    assert forall i | 0 < i < |q.slots| :: q.slots[i] == p.slots[i - 1];
    if HasId(p.slots, OVERVIEW) {
      var i :| 0 <= i < |p.slots| && p.slots[i].agentId == OVERVIEW;
      assert q.slots[0].agentId == q.slots[i + 1].agentId;
    }
  }

  /** Such a slot is there once one restored as a developer carries the overview's id. */
  lemma OverviewCollidesAfterRestore()
    ensures var stray := NewSlot(OVERVIEW, "alpha", Claude, Developer);
      var restored := RestoreSlot(Empty(2), stray);
      var spawned := SpawnOverview(restored.pool, MockKind);
      && restored.result.Ok? && spawned.result.Ok? && !DistinctIds(spawned.pool.slots)
  {
    var stray := NewSlot(OVERVIEW, "alpha", Claude, Developer);
    var p := RestoreSlot(Empty(2), stray).pool;
    assert p.slots == [stray];
    assert HasId(p.slots, OVERVIEW) by { assert p.slots[0].agentId == OVERVIEW; }
    OverviewCollides(p, MockKind);
  }
}
