/**
 Capturing every slot at shutdown and restoring the slots in order gives back the same agents,
 and a counter that collides with none of them.
 */
module PoolSnapshot {
  import opened Wrappers
  import opened AgentNaming
  import opened AgentPool
  import SlotStatus
  import Transcript

  datatype AgentSnapshot = AgentSnapshot(
    agentId: string,
    codename: string,
    providerType: ProviderType,
    role: Role,
    task: Option<string>,
    wasActive: bool,
    hadError: bool,
    transcript: seq<Transcript.Entry>,
    worktree: Worktree)

  /** The headless loop keeps no session id, and calls every agent active that is not stopped. */
  function Capture(s: Slot): AgentSnapshot {
    AgentSnapshot(s.agentId, s.codename, s.providerType, s.role, s.task,
                  !SlotStatus.IsTerminal(s.status), SlotStatus.IsBlocked(s.status), s.transcript, s.worktree)
  }

  const INTERRUPTED := "interrupted during execution"

  function RestoredSlot(a: AgentSnapshot): Slot {
    Slot(a.agentId, a.codename, a.providerType, a.role,
         if a.wasActive then SlotStatus.Stopped(INTERRUPTED) else SlotStatus.Idle,
         None, a.transcript, a.task, a.worktree)
  }

  function CaptureAll(slots: seq<Slot>): seq<AgentSnapshot> {
    seq(|slots|, i requires 0 <= i < |slots| => Capture(slots[i]))
  }

  /** Restore in order; a slot the pool refuses is skipped. */
  function RestoreAll(p: Pool, agents: seq<AgentSnapshot>): Pool {
    if agents == [] then p
    else RestoreSlot(RestoreAll(p, agents[..|agents| - 1]), RestoredSlot(agents[|agents| - 1])).pool
  }

  /** The same agent as before shutdown; only its status and session are new. */
  predicate SameAgent(before: Slot, after: Slot) {
    && after.agentId == before.agentId && after.codename == before.codename
    && after.providerType == before.providerType && after.role == before.role
    && after.task == before.task && after.transcript == before.transcript && after.worktree == before.worktree
    && after.session == None
    && after.status == if SlotStatus.IsTerminal(before.status) then SlotStatus.Idle else SlotStatus.Stopped(INTERRUPTED)
  }

  predicate SameAgents(before: seq<Slot>, after: seq<Slot>) {
    |after| == |before| && forall i | 0 <= i < |before| :: SameAgent(before[i], after[i])
  }

  lemma RestorePoolInv(p: Pool, slot: Slot)
    requires PoolInv(p) && Sound(Restore(slot))
    ensures PoolInv(RestoreSlot(p, slot).pool)
  {
    var h := History(p, [], Ids(p.slots));
    RestoreKeepsInv(h, slot);
  }

  /** One more slot of a sound pool is accepted and keeps its place. */
  lemma RestoreNext(slots: seq<Slot>, next: nat, q: Pool)
    requires slots != [] && SlotsInv(slots, next) && |slots| <= q.maxSlots
    requires SameAgents(slots[..|slots| - 1], q.slots)
    ensures SameAgents(slots, RestoreSlot(q, RestoredSlot(Capture(slots[|slots| - 1]))).pool.slots)
  {
    var n := |slots| - 1;
    var slot := RestoredSlot(Capture(slots[n]));
    forall i | 0 <= i < n ensures q.slots[i].agentId != slot.agentId && (n > 0 ==> !slot.role.ProductOwner?) {
      assert SameAgent(slots[..n][i], q.slots[i]);
      assert slots[i].agentId != slots[n].agentId;
    }
    if n == 0 {
      assert [slot] + q.slots == q.slots + [slot];
    }
    var r := RestoreSlot(q, slot);
    assert r.pool.slots == q.slots + [slot];
    forall i | 0 <= i < n ensures SameAgent(slots[i], r.pool.slots[i]) {
      assert SameAgent(slots[..n][i], q.slots[i]);
    }
  }

  lemma {:induction false} RestoreSame(slots: seq<Slot>, next: nat, maxSlots: nat)
    requires SlotsInv(slots, next) && |slots| <= maxSlots && next >= 1
    ensures var q := RestoreAll(Empty(maxSlots), CaptureAll(slots));
      SameAgents(slots, q.slots) && PoolInv(q) && q.maxSlots == maxSlots && q.next <= next
  {
    if slots != [] {
      var n := |slots| - 1;
      assert CaptureAll(slots)[..n] == CaptureAll(slots[..n]);
      RestoreSame(slots[..n], next, maxSlots);
      var q := RestoreAll(Empty(maxSlots), CaptureAll(slots[..n]));
      RestoreNext(slots, next, q);
      RestorePoolInv(q, RestoredSlot(Capture(slots[n])));
      var r := RestoreSlot(q, RestoredSlot(Capture(slots[n]))).pool;
      SyncedNextBounded(r.slots, q.next, next) by {
        forall i | 0 <= i < |r.slots| ensures IndexBelow(r.slots[i].agentId, next) {
          assert SameAgent(slots[i], r.slots[i]);
        }
      }
    }
  }

  lemma SyncedNextBounded(slots: seq<Slot>, before: nat, next: nat)
    requires slots != [] && before <= next
    requires forall i | 0 <= i < |slots| :: IndexBelow(slots[i].agentId, next)
    ensures SyncedNext(slots, before) <= next
  {
  }

  /** The snapshot round trip, into a pool with room for every agent. */
  lemma SnapshotRoundTrip(p: Pool, maxSlots: nat)
    requires PoolInv(p) && |p.slots| <= maxSlots && 1 <= p.next <= MAX_INDEX
    ensures var q := RestoreAll(Empty(maxSlots), CaptureAll(p.slots));
      && SameAgents(p.slots, q.slots)
      && PoolInv(q) && q.next <= p.next
      && AgentIdOf(q.next) !in Ids(q.slots)
  {
    RestoreSame(p.slots, p.next, maxSlots);
    var q := RestoreAll(Empty(maxSlots), CaptureAll(p.slots));
    ParseAgentId(q.next);
  }

  // ----- The pool as an object -----

  class WorkerPool {
    var slots: seq<Slot>
    const maxSlots: nat
    var nextAgentIndex: nat
    var deciders: set<string>

    function State(): Pool
      reads this
    {
      Pool(slots, maxSlots, nextAgentIndex, deciders)
    }

    constructor (maxSlots: nat)
      ensures State() == Empty(maxSlots)
    {
      slots, this.maxSlots, nextAgentIndex, deciders := [], maxSlots, 1, {};
    }

    method GenerateAgentId() returns (id: string)
      modifies this`nextAgentIndex
      ensures id == AgentIdOf(old(nextAgentIndex)) && nextAgentIndex == old(nextAgentIndex) + 1
    {
      id := AgentIdOf(nextAgentIndex);
      nextAgentIndex := nextAgentIndex + 1;
    }

    method SpawnWorker(kind: ProviderKind) returns (result: Result<string, string>)
      modifies this
      ensures Outcome(State(), result) == AgentPool.SpawnWorker(old(State()), kind)
    {
      if |slots| >= maxSlots {
        return Err("Agent pool is full");
      }
      var id := GenerateAgentId();
      var codename := Codename(nextAgentIndex - 1);
      slots := slots + [NewSlot(id, codename, TypeOf(kind), Developer)];
      if !kind.MockKind? {
        deciders := deciders + {id};
      }
      return Ok(id);
    }

    method SpawnOverviewAgent(kind: ProviderKind) returns (result: Result<string, string>)
      modifies this
      ensures Outcome(State(), result) == AgentPool.SpawnOverview(old(State()), kind)
    {
      if HasOwner(slots) {
        return Err("OVERVIEW agent already exists");
      }
      if |slots| >= maxSlots {
        return Err("Agent pool is full");
      }
      slots := [NewSlot(OVERVIEW, OVERVIEW, TypeOf(kind), ProductOwner)] + slots;
      if !kind.MockKind? {
        deciders := deciders + {OVERVIEW};
      }
      return Ok(OVERVIEW);
    }

    method RestoreSlot(slot: Slot) returns (result: Result<(), string>)
      modifies this
      ensures Outcome(State(), result) == AgentPool.RestoreSlot(old(State()), slot)
    {
      if |slots| >= maxSlots {
        return Err("Agent pool is full");
      }
      if HasId(slots, slot.agentId) {
        return Err(AlreadyExists(slot.agentId));
      }
      if slot.role.ProductOwner? {
        if HasOwner(slots) {
          return Err("OVERVIEW agent already exists");
        }
        slots := [slot] + slots;
      } else {
        slots := slots + [slot];
      }
      nextAgentIndex := SyncedNext(slots, nextAgentIndex);
      if WantsDecider(slot.providerType) {
        deciders := deciders + {slot.agentId};
      }
      return Ok(());
    }

    method StopAgent(id: string) returns (result: Result<nat, string>)
      modifies this
      ensures Outcome(State(), result) == AgentPool.StopAgent(old(State()), id)
    {
      var found := IndexOf(slots, id);
      if found.None? {
        return Err(NotFound(id));
      }
      var index := found.value;
      var stopped := SlotStatus.Stopped(STOP_REASON);
      if !SlotStatus.CanTransition(slots[index].status, stopped) {
        return Err("Failed to stop agent");
      }
      slots := slots[index := slots[index].(status := stopped)];
      deciders := deciders - {id};
      return Ok(index);
    }

    method RemoveAgent(id: string) returns (result: Result<(), string>)
      modifies this
      ensures Outcome(State(), result) == AgentPool.RemoveAgent(old(State()), id)
    {
      var found := IndexOf(slots, id);
      if found.None? {
        return Err(NotFound(id));
      }
      var index := found.value;
      if !SlotStatus.IsTerminal(slots[index].status) {
        return Err("Cannot remove agent (must be stopped)");
      }
      slots := slots[..index] + slots[index + 1..];
      deciders := deciders - {id};
      return Ok(());
    }

    method CaptureSnapshot() returns (agents: seq<AgentSnapshot>)
      ensures agents == CaptureAll(slots)
    {
      agents := [];
      for i := 0 to |slots|
        invariant agents == CaptureAll(slots[..i])
      {
        assert CaptureAll(slots[..i + 1]) == CaptureAll(slots[..i]) + [Capture(slots[i])];
        agents := agents + [Capture(slots[i])];
      }
      assert slots[..|slots|] == slots;
    }

    /** The restore loop of a session: a slot that is refused is logged and skipped. */
    method RestoreFromSnapshot(agents: seq<AgentSnapshot>)
      modifies this
      ensures State() == RestoreAll(old(State()), agents)
    {
      for i := 0 to |agents|
        invariant State() == RestoreAll(old(State()), agents[..i])
      {
        assert agents[..i + 1][..i] == agents[..i];
        var result := RestoreSlot(RestoredSlot(agents[i]));
      }
      assert agents[..|agents|] == agents;
    }
  }
}
