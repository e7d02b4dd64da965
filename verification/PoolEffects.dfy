/**
 What spawning, restoring, stopping and removing do to a pool: when each is refused, and
 otherwise the one slot it touches, with every other kept. Source: core/src/agent_pool.rs,
 core/src/slot/status.rs.
 */
module PoolEffects {
  import opened Wrappers
  import opened AgentNaming
  import opened AgentPool
  import SlotStatus

  // ----- The transition matrix, seen from the status entered -----

  /** From which statuses one can be entered, besides itself. */
  predicate EnteredFrom(b: SlotStatus.Status, a: SlotStatus.Status) {
    match b
    case Idle => !a.Idle? && !a.Stopping? && !a.Stopped?
    case Starting => a.Idle? || a.Stopped?
    case Responding(_) => a.Starting? || a.ToolExecuting? || a.Blocked? || a.BlockedForDecision? || a.WaitingForInput?
    case ToolExecuting(_) => a.Responding?
    case Finishing => a.Responding? || a.ToolExecuting?
    case Stopping => a.Starting? || a.Responding? || a.ToolExecuting? || a.Finishing? || a.WaitingForInput?
    case Stopped(_) => !a.Stopped?
    case Error(_) => a.Starting? || a.Responding? || a.ToolExecuting? || a.Finishing? || a.Stopping? || a.Resting?
    case Blocked(_) =>
      a.Idle? || a.Starting? || a.Responding? || a.ToolExecuting? || a.Finishing? || a.BlockedForDecision? || a.WaitingForInput?
    case BlockedForDecision(_) =>
      a.Idle? || a.Starting? || a.Responding? || a.ToolExecuting? || a.Finishing? || a.Blocked? || a.WaitingForInput?
    case Paused(_) =>
      a.Idle? || a.Starting? || a.Responding? || a.ToolExecuting? || a.Finishing? || a.Blocked? || a.BlockedForDecision?
    case WaitingForInput(_) => a.Responding? || a.ToolExecuting?
    case Resting(_, _, _) => a.BlockedForDecision? || a.Resting?
  }

  /** The matrix by the status left and by the status entered are the same. */
  lemma MatrixBothWays(a: SlotStatus.Status, b: SlotStatus.Status)
    ensures SlotStatus.CanTransition(a, b) <==> EnteredFrom(b, a) || SlotStatus.Same(a, b)
  {
  }

  /** Statuses that differ can only count as the same if both carry a block. */
  lemma SameIs(a: SlotStatus.Status, b: SlotStatus.Status)
    ensures SlotStatus.Same(a, a)
    ensures SlotStatus.Same(a, b) == SlotStatus.Same(b, a)
    ensures SlotStatus.Same(a, b) && !a.BlockedForDecision? && !a.Resting? ==> a == b
  {
  }

  // ----- One slot -----

  /** The first slot with an id. */
  predicate IsAt(slots: seq<Slot>, id: string, i: nat) {
    && i < |slots| && slots[i].agentId == id
    && forall j | 0 <= j < i :: slots[j].agentId != id
  }

  predicate Absent(slots: seq<Slot>, id: string) {
    forall j | 0 <= j < |slots| :: slots[j].agentId != id
  }

  lemma Found(slots: seq<Slot>, id: string, i: nat)
    requires IsAt(slots, id, i)
    ensures IndexOf(slots, id) == Some(i)
  {
    assert slots[i].agentId == id;
    assert forall n | i < n <= |slots| :: slots[..n][i].agentId == id;
  }

  lemma NotThere(slots: seq<Slot>, id: string)
    requires Absent(slots, id)
    ensures IndexOf(slots, id) == None
  {
  }

  /** One slot is replaced and nothing else. */
  predicate OnlySlot(before: seq<Slot>, after: seq<Slot>, i: nat) {
    && i < |after| == |before|
    && forall j | 0 <= j < |before| && j != i :: after[j] == before[j]
  }

  /** One slot goes in at a place and the others keep their order. */
  predicate Inserted(before: seq<Slot>, after: seq<Slot>, i: nat, slot: Slot) {
    && |after| == |before| + 1 && i < |after| && after[i] == slot
    && (forall j | 0 <= j < i :: after[j] == before[j])
    && forall j | i < j < |after| :: after[j] == before[j - 1]
  }

  /** Only a slot's deciding agent is added or taken away; capacity is as it was. */
  predicate DecidersPlus(p: Pool, q: Pool, id: string, wanted: bool) {
    && q.maxSlots == p.maxSlots
    && q.deciders == p.deciders + if wanted then {id} else {}
  }

  predicate DecidersMinus(p: Pool, q: Pool, id: string) {
    && q.maxSlots == p.maxSlots
    && q.deciders == p.deciders - {id}
  }

  predicate IsNew(slot: Slot, kind: ProviderKind, role: Role) {
    && slot.role == role && slot.status.Idle?
    && (slot.providerType == Claude <==> kind == ClaudeKind)
    && (slot.providerType == Codex <==> kind == CodexKind)
    && slot.providerType != Opencode
    && slot.session == None && slot.transcript == [] && slot.task == None
    && slot.worktree.path == None && slot.worktree.branch == None && slot.worktree.id == None
  }

  // ----- Operations -----

  /** A worker goes in last, as an idle developer under the next index; only a full pool refuses it. */
  lemma SpawnAddsLast(p: Pool, kind: ProviderKind)
    requires p.next <= MAX_INDEX
    ensures var o := SpawnWorker(p, kind);
      if |p.slots| >= p.maxSlots then o.pool == p && o.result == Err("Agent pool is full")
      else
        && o.result.Ok? && ParseAgentIndex(o.result.value) == Some(p.next)
        && |o.pool.slots| == |p.slots| + 1
        && var slot := o.pool.slots[|p.slots|];
           && Inserted(p.slots, o.pool.slots, |p.slots|, slot)
           && slot.agentId == o.result.value && slot.codename == Codename(p.next) && IsNew(slot, kind, Developer)
           && o.pool.next == p.next + 1
           && DecidersPlus(p, o.pool, o.result.value, kind != MockKind)
  {
    ParseAgentId(p.next);
  }

  /** The overview goes in first; a pool that has one, or is full, refuses it. */
  lemma OverviewAddsFirst(p: Pool, kind: ProviderKind)
    ensures var o := SpawnOverview(p, kind);
      if exists i | 0 <= i < |p.slots| :: p.slots[i].role == ProductOwner then
        o.pool == p && o.result == Err("OVERVIEW agent already exists")
      else if |p.slots| >= p.maxSlots then o.pool == p && o.result == Err("Agent pool is full")
      else
        && o.result == Ok("OVERVIEW")
        && |o.pool.slots| == |p.slots| + 1
        && var slot := o.pool.slots[0];
           && Inserted(p.slots, o.pool.slots, 0, slot)
           && slot.agentId == "OVERVIEW" && slot.codename == "OVERVIEW" && IsNew(slot, kind, ProductOwner)
           && o.pool.next == p.next
           && DecidersPlus(p, o.pool, "OVERVIEW", kind != MockKind)
  {
  }

  /** A worktree spawn that fails leaves the agents alone and uses up one index, unless the pool was full. */
  lemma FailedSpawnUsesIndex(p: Pool)
    ensures var q := SpawnFailing(p);
      && q.slots == p.slots && q.deciders == p.deciders && q.maxSlots == p.maxSlots
      && q.next == p.next + if |p.slots| >= p.maxSlots then 0 else 1
  {
  }

  /** A restored slot goes in as captured: an overview first, any other last. */
  lemma RestoreInserts(p: Pool, slot: Slot)
    ensures var o := RestoreSlot(p, slot);
      var refused :=
        || |p.slots| >= p.maxSlots
        || !Absent(p.slots, slot.agentId)
        || (slot.role == ProductOwner && HasOwner(p.slots));
      && (o.result.Err? <==> refused)
      && (refused ==> o.pool == p)
      && (!refused ==>
            && Inserted(p.slots, o.pool.slots, if slot.role == ProductOwner then 0 else |p.slots|, slot)
            && o.pool.next >= p.next
            && DecidersPlus(p, o.pool, slot.agentId, slot.providerType == Claude || slot.providerType == Codex))
  {
  }

  /**
   Stopping: only an agent that is not there, or was stopped for another reason, is refused. The
   first slot with the id is stopped by request and otherwise as it was; no other slot changes.
   */
  lemma StopStops(p: Pool, id: string, i: nat)
    requires IsAt(p.slots, id, i)
    ensures var o := StopAgent(p, id);
      var was := p.slots[i];
      if was.status.Stopped? && was.status.reason != "user requested" then
        o.pool == p && o.result == Err("Failed to stop agent")
      else
        && o.result == Ok(i) && OnlySlot(p.slots, o.pool.slots, i)
        && o.pool.slots[i].status == SlotStatus.Stopped("user requested")
        && o.pool.slots[i].(status := was.status) == was
        && o.pool.next == p.next && DecidersMinus(p, o.pool, id)
  {
    Found(p.slots, id, i);
  }

  /** Removing takes out the first slot with the id if it is stopped, whatever stopped it. */
  lemma RemoveRemoves(p: Pool, id: string, i: nat)
    requires IsAt(p.slots, id, i)
    ensures var o := RemoveAgent(p, id);
      if !p.slots[i].status.Stopped? then
        o.pool == p && o.result == Err("Cannot remove agent (must be stopped)")
      else
        && o.result == Ok(()) && Inserted(o.pool.slots, p.slots, i, p.slots[i])
        && o.pool.next == p.next && DecidersMinus(p, o.pool, id)
        && (DistinctIds(p.slots) ==> Absent(o.pool.slots, id))
  {
    Found(p.slots, id, i);
  }

  /** An agent that is not there can be neither stopped nor removed. */
  lemma UnknownIsRefused(p: Pool, id: string)
    requires Absent(p.slots, id)
    ensures StopAgent(p, id).pool == p && StopAgent(p, id).result == Err(NotFound(id))
    ensures RemoveAgent(p, id).pool == p && RemoveAgent(p, id).result == Err(NotFound(id))
  {
    NotThere(p.slots, id);
  }

  /** Stopping then removing an agent that can be stopped takes out just its slot. */
  lemma StopThenRemove(p: Pool, id: string, i: nat)
    requires IsAt(p.slots, id, i) && StopAgent(p, id).result.Ok?
    ensures var o := RemoveAgent(StopAgent(p, id).pool, id);
      o.result == Ok(()) && Inserted(o.pool.slots, p.slots, i, p.slots[i])
  {
    StopStops(p, id, i);
    RemoveRemoves(StopAgent(p, id).pool, id, i);
  }
}
