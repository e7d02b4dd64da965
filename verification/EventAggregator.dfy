/**
 The event aggregator as the program runs it: nested loops that drain the receivers of a map.
 Source: core/src/event_aggregator.rs.
 */
module EventAggregators {
  import opened Wrappers
  import opened EventChannels
  import opened TimedPolls

  datatype PollResult = PollResult(events: seq<AgentEvent>, empty: seq<AgentId>, disconnected: seq<AgentId>)

  function AsPoll(order: seq<AgentId>, r: PollResult): Poll {
    Poll(order, |order|, r.events, r.empty, r.disconnected)
  }

  /** The agents of a list that have a receiver, in order. */
  function Registered(channels: Channels, agents: seq<AgentId>): (r: seq<AgentId>)
    ensures forall a | a in r :: a in channels && a in agents
    ensures forall a | a in agents && a in channels :: a in r
  {
    if agents == [] then []
    else
      var n := |agents| - 1;
      Registered(channels, agents[..n]) + if agents[n] in channels then [agents[n]] else []
  }

  datatype Received = Event(event: ProviderEvent) | Empty | Disconnected

  class EventAggregator {
    var receivers: Channels

    constructor ()
      ensures receivers == map[]
    {
      receivers := map[];
    }

    /** A receiver already there is replaced, with whatever it had buffered. */
    method AddReceiver(a: AgentId, receiver: Channel)
      modifies this
      ensures receivers == old(receivers)[a := receiver]
    {
      receivers := receivers[a := receiver];
    }

    method RemoveReceiver(a: AgentId) returns (r: Option<Channel>)
      modifies this
      ensures receivers == old(receivers) - {a}
      ensures r == if a in old(receivers) then Some(old(receivers)[a]) else None
    {
      r := if a in receivers then Some(receivers[a]) else None;
      receivers := receivers - {a};
    }

    method TryRecv(a: AgentId) returns (r: Received)
      requires a in receivers
      modifies this
      ensures receivers.Keys == old(receivers).Keys
      ensures var c := old(receivers)[a];
              if c.buffer != [] then
                r == Event(c.buffer[0]) && receivers == old(receivers)[a := c.(buffer := c.buffer[1..])]
              else receivers == old(receivers) && r == if c.open then Empty else Disconnected
    {
      var c := receivers[a];
      if c.buffer == [] {
        return if c.open then Empty else Disconnected;
      }
      receivers := receivers[a := c.(buffer := c.buffer[1..])];
      return Event(c.buffer[0]);
    }

    /** Drain the receivers in the order given. */
    method PollEach(order: seq<AgentId>) returns (r: PollResult)
      requires forall i | 0 <= i < |order| :: order[i] in receivers
      modifies this
      ensures (receivers, AsPoll(order, r)) == ReceiveAll(old(receivers), NewPoll(order))
    {
      var events: seq<AgentEvent>, empty: seq<AgentId>, disconnected: seq<AgentId> := [], [], [];
      var i := 0;
      while i < |order|
        invariant Valid(receivers, Poll(order, i, events, empty, disconnected))
        invariant ReceiveAll(receivers, Poll(order, i, events, empty, disconnected))
               == ReceiveAll(old(receivers), NewPoll(order))
        decreases |order| - i
      {
        var a := order[i];
        var going := true;
        while going
          invariant going ==> i < |order| && a == order[i]
          invariant Valid(receivers, Poll(order, if going then i else i + 1, events, empty, disconnected))
          invariant ReceiveAll(receivers, Poll(order, if going then i else i + 1, events, empty, disconnected))
                 == ReceiveAll(old(receivers), NewPoll(order))
          decreases going, |receivers[a].buffer|
        {
          var received := TryRecv(a);
          match received {
            case Event(event) =>
              events := events + [FromProvider(a, event)];
            case Empty =>
              empty := empty + [a];
              going := false;
            case Disconnected =>
              disconnected := disconnected + [a];
              going := false;
          }
        }
        i := i + 1;
      }
      return PollResult(events, empty, disconnected);
    }

    /** The registered agents, in whatever order the map yields them. */
    method RegisteredAgents() returns (order: seq<AgentId>)
      ensures Distinct(order) && forall a :: a in order <==> a in receivers
    {
      order := [];
      var rest := receivers.Keys;
      while rest != {}
        invariant Distinct(order)
        invariant forall a :: a in order || a in rest <==> a in receivers
        invariant forall a | a in order :: a !in rest
        decreases |rest|
      {
        var a :| a in rest;
        order := order + [a];
        rest := rest - {a};
      }
    }

    /** Poll every registered agent once. */
    method PollAll() returns (r: PollResult, ghost order: seq<AgentId>)
      modifies this
      ensures Distinct(order) && forall a :: a in order <==> a in old(receivers)
      ensures (receivers, AsPoll(order, r)) == ReceiveAll(old(receivers), NewPoll(order))
    {
      var agents := RegisteredAgents();
      order := agents;
      r := PollEach(agents);
    }

    /**
     Poll, and poll again after each sleep, until there are events or the time is up; `sleeps`
     says how many sleeps it allows, and `sleep` what the providers do in them.  Later rounds add
     events and disconnections, not empty channels.
     */
    method PollWithTimeout(sleeps: nat, sleep: Sleep) returns (r: PollResult, ghost order: seq<AgentId>)
      requires ByProviders(sleep)
      modifies this
      ensures Distinct(order) && forall a :: a in order <==> a in old(receivers)
      ensures AsPoll(order, r) == Merged(Rounds(Starts(old(receivers), order, sleep, 0, sleeps), order))
    {
      var agents := RegisteredAgents();
      order := agents;
      assert Valid(receivers, NewPoll(agents));
      ghost var first, starts := receivers, [receivers];
      FirstRound(first, agents, sleep, sleeps);
      r := PollEach(agents);
      var i := 0;
      while i < sleeps && r.events == []
        invariant i <= sleeps && SoFar(first, agents, sleep, i, sleeps, receivers, AsPoll(agents, r), starts)
      {
        NextRound(first, agents, sleep, i, sleeps, receivers, AsPoll(agents, r), starts);
        receivers := sleep(i, receivers);
        starts := starts + [receivers];
        var next := PollEach(agents);
        r := PollResult(r.events + next.events, r.empty, r.disconnected + next.disconnected);
        i := i + 1;
      }
      assert starts + [] == starts;
    }

    /** Poll the agents listed, passing over those without a receiver. */
    method PollAgents(agents: seq<AgentId>) returns (r: PollResult)
      modifies this
      ensures var order := Registered(old(receivers), agents);
              (receivers, AsPoll(order, r)) == ReceiveAll(old(receivers), NewPoll(order))
    {
      var order: seq<AgentId> := [];
      for i := 0 to |agents|
        invariant order == Registered(receivers, agents[..i])
      {
        assert agents[..i + 1][..i] == agents[..i];
        if agents[i] in receivers {
          order := order + [agents[i]];
        }
      }
      assert agents[..|agents|] == agents;
      r := PollEach(order);
    }
  }

  /** One poll of all agents hands over each agent's buffer, in order, and leaves it empty. */
  lemma PollAllDelivers(before: Channels, order: seq<AgentId>, after: Channels, r: PollResult, a: AgentId)
    requires Distinct(order) && (forall b :: b in order <==> b in before) && a in before
    requires (after, AsPoll(order, r)) == ReceiveAll(before, NewPoll(order))
    ensures a in after && after[a].buffer == [] && Of(r.events, a) == before[a].buffer
    ensures after[a].open == before[a].open
  {
    ReceiveAllEmpties(before, NewPoll(order), a);
    assert Ahead(order, 0, a);
    assert Of(r.events, a) + [] == Of(r.events, a);
  }

  /** It reports each agent once: as disconnected if its sender is gone, as empty if not. */
  lemma PollAllReports(before: Channels, order: seq<AgentId>, after: Channels, r: PollResult, a: AgentId)
    requires Distinct(order) && (forall b :: b in order <==> b in before) && a in before
    requires (after, AsPoll(order, r)) == ReceiveAll(before, NewPoll(order))
    ensures multiset(r.empty)[a] == if before[a].open then 1 else 0
    ensures multiset(r.disconnected)[a] == if before[a].open then 0 else 1
  {
    PollAllDelivers(before, order, after, r, a);
    StartSorted(before, order);
    ReceiveAllSorts(before, NewPoll(order));
    DistinctOnce(order, a);
    ReportedBy(after, AsPoll(order, r), a);
  }

  lemma StartSorted(channels: Channels, order: seq<AgentId>)
    requires Valid(channels, NewPoll(order))
    ensures Sorted(channels, NewPoll(order))
  {
  }

  lemma ReportedBy(channels: Channels, p: Poll, a: AgentId)
    requires Valid(channels, p) && Sorted(channels, p) && p.next == |p.order| && a in channels
    requires multiset(p.order)[a] == 1
    ensures multiset(p.empty)[a] == if channels[a].open then 1 else 0
    ensures multiset(p.disconnected)[a] == if channels[a].open then 0 else 1
  {
    assert p.order[..p.next] == p.order;
    assert multiset(p.empty)[a] + multiset(p.disconnected)[a] == 1;
    if channels[a].open {
      assert a !in p.disconnected;
    } else {
      assert a !in p.empty;
    }
  }
}
