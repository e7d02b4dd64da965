/**
 The decision agent slot as the object the main thread owns, with the cells it shares with
 its background threads.  Each method is proved against the operation of the same name in
 DecisionProtocol, so a program that calls them is a run of that transition system.
 */
module DecisionAgents {
  import opened Wrappers
  import DP = DecisionProtocol
  import DR = DecisionRefinement

  class DecisionAgentSlot {
    const decide: DP.Engine
    var status: DP.Status
    var decisionCount: nat
    var errorCount: nat
    var reflectionRound: DP.Round
    var pendingReflectionRound: Option<DP.Round>
    var pendingFallbackResponse: Option<DP.Response>
    var requestRx: seq<DP.Request>
    var responseQueue: seq<DP.Response>
    var mailSender: bool
    var threads: seq<DP.Thread>

    function State(): DP.Slot
      reads this
    {
      DP.Slot(status, decisionCount, errorCount, reflectionRound, pendingReflectionRound,
              pendingFallbackResponse, requestRx, responseQueue, mailSender, threads)
    }

    constructor (decide: DP.Engine)
      ensures State() == DP.NEW_SLOT && this.decide == decide
    {
      this.decide := decide;
      status, decisionCount, errorCount, reflectionRound := DP.Idle, 0, 0, 0;
      pendingReflectionRound, pendingFallbackResponse := None, None;
      requestRx, responseQueue, mailSender, threads := [], [], true, [];
    }

    method TryReceiveRequest() returns (request: Option<DP.Request>)
      modifies this`requestRx
      ensures old(requestRx) == [] ==> request == None && requestRx == []
      ensures old(requestRx) != [] ==> request.Some? && [request.value] + requestRx == old(requestRx)
    {
      if requestRx == [] {
        request := None;
      } else {
        request := Some(requestRx[0]);
        requestRx := requestRx[1..];
      }
    }

    method TryReceiveResponse() returns (response: Option<DP.Response>)
      modifies this`responseQueue
      ensures old(responseQueue) == [] ==> response == None && responseQueue == []
      ensures old(responseQueue) != [] ==> response.Some? && [response.value] + responseQueue == old(responseQueue)
    {
      if responseQueue == [] {
        response := None;
      } else {
        response := Some(responseQueue[0]);
        responseQueue := responseQueue[1..];
      }
    }

    method SpawnAsyncProcessing(request: DP.Request)
      requires decisionCount > 0
      modifies this`status, this`threads
      ensures status == DP.Thinking
      ensures threads == old(threads) + [DP.Deciding(decisionCount - 1, request, reflectionRound)]
    {
      threads := threads + [DP.Deciding(decisionCount - 1, request, reflectionRound)];
      status := DP.Thinking;
    }

    method PollAndProcess() returns (processed: nat)
      modifies this
      ensures State() == DP.PollAndProcess(old(State()))
      ensures processed == if old(status).Idle? && old(requestRx) != [] then 1 else 0
    {
      processed := 0;
      if !status.Idle? {
        return;
      }
      var request := TryReceiveRequest();
      if request.Some? {
        decisionCount := decisionCount + 1;
        SpawnAsyncProcessing(request.value);
        processed := processed + 1;
      }
    }

    method ClearThinkingStatus(hadError: bool)
      modifies this
      ensures State() == DP.ClearThinking(old(State()), hadError)
    {
      if status.Thinking? {
        if pendingReflectionRound.Some? {
          reflectionRound := pendingReflectionRound.value;
        }
        pendingReflectionRound := None;
        if hadError {
          errorCount := errorCount + 1;
        }
        status := DP.Idle;
      }
    }

    method MarkResponseCollected()
      modifies this
      ensures State() == DP.ClearThinking(old(State()), false)
    {
      if status.Thinking? {
        if pendingReflectionRound.Some? {
          reflectionRound := pendingReflectionRound.value;
        }
        pendingReflectionRound := None;
        status := DP.Idle;
      }
    }

    method TakeFallbackResponse() returns (response: Option<DP.Response>)
      modifies this`pendingFallbackResponse
      ensures response == old(pendingFallbackResponse) && pendingFallbackResponse == None
    {
      response := pendingFallbackResponse;
      pendingFallbackResponse := None;
    }

    method Stop(reason: string)
      modifies this`status
      ensures State() == DP.Stop(old(State()), reason)
    {
      status := DP.Stopped(reason);
    }

    method ResetError()
      modifies this`status
      ensures State() == DP.ResetError(old(State()))
    {
      if status.Error? {
        status := DP.Idle;
      }
    }

    /** One action of background thread i on the cells it shares with the slot. */
    method ThreadAct(i: nat)
      requires i < |threads|
      modifies this
      ensures State() == DP.ThreadAct(decide, old(State()), i)
    {
      match threads[i]
      case Deciding(ticket, request, round) =>
        var decision := decide(ticket, request, round);
        pendingReflectionRound := Some(decision.round);
        threads := threads[i := DP.Sending(DP.MakeResponse(request, decision))];
      case Sending(response) =>
        if mailSender {
          responseQueue := responseQueue + [response];
          threads := DP.Without(threads, i);
        } else {
          threads := threads[i := DP.Storing(response)];
        }
      case Storing(response) =>
        pendingFallbackResponse := Some(response);
        threads := DP.Without(threads, i);
    }

    /** The body of the pool's poll for this agent. */
    method Poll() returns (responses: seq<DP.Response>)
      modifies this
      ensures DR.Polled(State(), responses) == DR.Poll(old(State()))
    {
      responses := [];
      var processed := PollAndProcess();
      ghost var polled := State();
      var receivedThisPoll, hadError := false, false;
      if mailSender {
        var next := TryReceiveResponse();
        while next.Some?
          invariant State() == polled.(responses := responseQueue)
          invariant responses + (if next.Some? then [next.value] else []) + responseQueue == polled.responses
          invariant next == None ==> responseQueue == []
          invariant receivedThisPoll <==> responses != []
          invariant hadError <==> DR.AnyError(responses)
          decreases |responseQueue|, next.Some?
        {
          var response := next.value;
          if response.IsError() {
            hadError := true;
          }
          ghost var before := responses;
          responses := responses + [response];
          assert DR.AnyError(responses) <==> DR.AnyError(before) || response.IsError() by {
            assert response in responses;
          }
          receivedThisPoll := true;
          next := TryReceiveResponse();
        }
        assert responses + [] + [] == responses;
      }
      if !receivedThisPoll {
        var fallback := TakeFallbackResponse();
        if fallback.Some? {
          if fallback.value.IsError() {
            hadError := true;
          }
          responses := responses + [fallback.value];
          receivedThisPoll := true;
        }
      }
      if receivedThisPoll {
        ClearThinkingStatus(hadError);
      }
    }
  }

  /** What the pool's poll returns: each agent's responses in turn, tagged with its id. */
  function Tagged(id: string, rs: seq<DP.Response>): seq<(string, DP.Response)> {
    seq(|rs|, i requires 0 <= i < |rs| => (id, rs[i]))
  }

  function PolledResponses(ids: seq<string>, states: seq<DP.Slot>): seq<(string, DP.Response)>
    requires |ids| == |states|
  {
    if ids == [] then []
    else PolledResponses(ids[..|ids| - 1], states[..|ids| - 1]) + Tagged(ids[|ids| - 1], DR.Poll(states[|ids| - 1]).responses)
  }

  ghost function States(agents: seq<DecisionAgentSlot>): (states: seq<DP.Slot>)
    reads agents
    ensures |states| == |agents|
    ensures forall i | 0 <= i < |agents| :: states[i] == agents[i].State()
  {
    seq(|agents|, i requires 0 <= i < |agents| reads agents => agents[i].State())
  }

  ghost predicate Distinct(agents: seq<DecisionAgentSlot>) {
    forall i, j | 0 <= i < j < |agents| :: agents[i] != agents[j]
  }

  /** One agent's turn: its own slot is polled and every other is left alone. */
  method PollAt(agents: seq<DecisionAgentSlot>, k: nat) returns (responses: seq<DP.Response>)
    requires k < |agents| && Distinct(agents)
    modifies agents[k]
    ensures States(agents) == old(States(agents))[k := DR.Poll(old(States(agents))[k]).slot]
    ensures responses == DR.Poll(old(States(agents))[k]).responses
  {
    ghost var before := States(agents);
    responses := agents[k].Poll();
    ghost var after := States(agents);
    assert after[k] == DR.Poll(before[k]).slot;
    forall i | 0 <= i < |agents| && i != k ensures after[i] == before[i] {
      assert agents[i] != agents[k] && unchanged(agents[i]);
    }
  }

  /** Poll every agent once, in the coordinator's order; no agent's poll touches another agent. */
  method PollDecisionAgents(ids: seq<string>, agents: seq<DecisionAgentSlot>) returns (responses: seq<(string, DP.Response)>)
    requires |ids| == |agents| && Distinct(agents)
    modifies agents
    ensures forall i | 0 <= i < |agents| :: States(agents)[i] == DR.Poll(old(States(agents))[i]).slot
    ensures responses == PolledResponses(ids, old(States(agents)))
  {
    responses := [];
    ghost var before := States(agents);
    for k := 0 to |agents|
      invariant forall i | 0 <= i < k :: States(agents)[i] == DR.Poll(before[i]).slot
      invariant forall i | k <= i < |agents| :: States(agents)[i] == before[i]
      invariant responses == PolledResponses(ids[..k], before[..k])
    {
      var rs := PollAt(agents, k);
      PolledNext(ids, before, k);
      responses := responses + Tagged(ids[k], rs);
    }
    assert ids[..|ids|] == ids && before[..|ids|] == before;
  }

  lemma PolledNext(ids: seq<string>, states: seq<DP.Slot>, k: nat)
    requires k < |ids| == |states|
    ensures PolledResponses(ids[..k + 1], states[..k + 1]) ==
      PolledResponses(ids[..k], states[..k]) + Tagged(ids[k], DR.Poll(states[k]).responses)
  {
    assert ids[..k + 1][..k] == ids[..k] && states[..k + 1][..k] == states[..k];
  }
}
