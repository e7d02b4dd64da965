/**
 What the steps of the decision protocol do to a slot, in terms of what a caller sees.
 Source: core/src/decision_agent_slot.rs, core/src/agent_pool.rs, core/src/decision_mail.rs.
 */
module DecisionEffects {
  import opened Wrappers
  import opened DecisionProtocol
  import opened DecisionRefinement

  /** The answer waiting to be collected, from the channel or from the fallback. */
  function Waiting(s: Slot): seq<Response> {
    s.responses + if s.fallback.Some? then [s.fallback.value] else []
  }

  /** A poll delivers the waiting answer, whole and once, and leaves both cells empty. */
  lemma PollCollects(decide: Engine, y: System)
    requires Inv(decide, y) && y.main.Outside?
    ensures Poll(y.slot).responses == Waiting(y.slot) && |Waiting(y.slot)| <= 1
    ensures Waiting(Poll(y.slot).slot) == []
  {
  }

  /** With its answer delivered an agent that is not stopped is idle, in the round the decision left. */
  lemma PollEndsDecision(decide: Engine, y: System)
    requires Inv(decide, y) && y.main.Outside? && !y.slot.status.Stopped? && Waiting(y.slot) != []
    ensures var s, z := y.slot, Poll(y.slot).slot;
      && s.pendingRound.Some? && z.status.Idle? && z.round == s.pendingRound.value && z.pendingRound == None
      && z.errorCount == s.errorCount + (if Waiting(s)[0].IsError() then 1 else 0)
      && z.decisionCount == s.decisionCount && z.requests == s.requests && z.threads == [] == s.threads
  {
    var s := y.slot;
    if s.responses != [] {
      assert s.responses == [s.responses[0]];
      assert AnyError(s.responses) <==> s.responses[0].IsError();
    }
  }

  /** An idle agent with a request starts on the oldest one, in its present round. */
  lemma PollStartsDecision(decide: Engine, y: System)
    requires Inv(decide, y) && y.main.Outside? && y.slot.status.Idle? && y.slot.requests != []
    ensures var s, z := y.slot, Poll(y.slot).slot;
      && z.status.Thinking? && [s.requests[0]] + z.requests == s.requests
      && z.threads == [Deciding(s.decisionCount, s.requests[0], s.round)]
      && z.decisionCount == s.decisionCount + 1 && z.errorCount == s.errorCount && z.round == s.round
  {
  }

  /** In every other case a poll changes nothing but what it collects. */
  lemma PollWaits(decide: Engine, y: System)
    requires Inv(decide, y) && y.main.Outside?
    requires y.slot.status.Stopped? || (Waiting(y.slot) == [] && (y.slot.status.Thinking? || y.slot.requests == []))
    ensures Poll(y.slot).slot == y.slot.(responses := [], fallback := None)
  {
  }

  /** A response says whose it is and is an error exactly if the engine failed. */
  lemma ResponseTells(q: Request, d: Decision)
    ensures var r := MakeResponse(q, d);
      && r.workAgentId == q.workAgentId
      && (r.IsError() <==> d.verdict.Err?) && (r.output.Some? <==> d.verdict.Ok?)
      && (d.verdict.Err? ==> r.error == Some(d.verdict.error))
      && (d.verdict.Ok? ==>
            r.output == Some(d.verdict.value) && r.prompt == Some(d.prompt)
            && r.thinking == Some(d.verdict.value.reasoning) && r.situation == Some(q.situation) && r.tier.Some?)
  {
  }

  /** The tier shown: Critical exactly for what needs a human, Complex for errors and partial work. */
  lemma TierTells(situation: string, requiresHuman: bool)
    ensures Tier(situation, requiresHuman) == "Critical" <==> requiresHuman
    ensures Tier(situation, requiresHuman) == "Complex" <==>
      !requiresHuman && situation in {"error", "partial_completion"}
    ensures Tier(situation, requiresHuman) == "Simple" <==>
      !requiresHuman && situation in {"waiting_for_choice", "agent_idle", "rate_limit_recovery"}
    ensures Tier(situation, requiresHuman) == "High" <==> !requiresHuman && situation == "task_starting"
    ensures Tier(situation, requiresHuman) in {"Critical", "Complex", "Simple", "High", "Medium"}
  {
    assert "Critical"[0] == 'C' && "Complex"[2] == 'm' && "Critical"[2] == 'i';
    assert "Simple"[0] == 'S' && "High"[0] == 'H' && "Medium"[0] == 'M';
  }

  /** Stopping works from every status, and resetting only from an error. */
  lemma StopAndReset(s: Slot, reason: string)
    ensures Stop(s, reason).status == Stopped(reason) && Stop(s, reason).(status := s.status) == s
    ensures ResetError(s).status == if s.status.Error? then Idle else s.status
    ensures ResetError(s).(status := s.status) == s
  {
  }
}
