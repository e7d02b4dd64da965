/**
 Polling many agents' event channels while their providers keep sending: every single receive,
 send and sender drop is a step, in any order.
 Source: core/src/event_aggregator.rs.
 */
module EventChannels {
  import opened Wrappers
  import Transcript

  datatype AgentId = AgentId(name: string)
  type ProviderEvent = Transcript.Event

  /** A provider's channel: what it has sent and nobody received, and whether it may send more. */
  datatype Channel = Channel(buffer: seq<ProviderEvent>, open: bool)

  type Channels = map<AgentId, Channel>

  datatype AgentEvent = FromProvider(agent: AgentId, event: ProviderEvent)

  /** The events of one agent, in order. */
  function Of(events: seq<AgentEvent>, a: AgentId): seq<ProviderEvent> {
    if events == [] then []
    else
      var n := |events| - 1;
      if events[n].agent == a then Of(events[..n], a) + [events[n].event] else Of(events[..n], a)
  }

  /** A poll under way: the receivers in visiting order, the one it is at, and its findings. */
  datatype Poll = Poll(
    order: seq<AgentId>, next: nat,
    events: seq<AgentEvent>, empty: seq<AgentId>, disconnected: seq<AgentId>)

  function NewPoll(order: seq<AgentId>): Poll {
    Poll(order, 0, [], [], [])
  }

  predicate Valid(channels: Channels, p: Poll) {
    p.next <= |p.order| && forall i | 0 <= i < |p.order| :: p.order[i] in channels
  }

  /** One non-blocking receive: an event, or a report and on to the next receiver. */
  function Receive(channels: Channels, p: Poll): (Channels, Poll)
    requires Valid(channels, p) && p.next < |p.order|
  {
    var a := p.order[p.next];
    var c := channels[a];
    if c.buffer != [] then
      (channels[a := c.(buffer := c.buffer[1..])], p.(events := p.events + [FromProvider(a, c.buffer[0])]))
    else if c.open then (channels, p.(next := p.next + 1, empty := p.empty + [a]))
    else (channels, p.(next := p.next + 1, disconnected := p.disconnected + [a]))
  }

  /** What is left to receive at the present receiver. */
  function Waiting(channels: Channels, p: Poll): nat
    requires Valid(channels, p)
  {
    if p.next < |p.order| then |channels[p.order[p.next]].buffer| else 0
  }

  /** A poll that nothing interferes with. */
  function ReceiveAll(channels: Channels, p: Poll): (r: (Channels, Poll))
    requires Valid(channels, p)
    ensures Valid(r.0, r.1) && r.1.order == p.order && r.1.next == |p.order|
    decreases |p.order| - p.next, Waiting(channels, p)
  {
    if p.next == |p.order| then (channels, p)
    else
      var (c, q) := Receive(channels, p);
      ReceiveAll(c, q)
  }

  // ---------------------------------------------------------------- the system

  /**
   All that was ever sent and handed to the caller of a finished poll, the poll under way, and
   the finished polls.
   */
  datatype System = System(
    channels: Channels, sent: seq<AgentEvent>, handed: seq<AgentEvent>,
    poll: Option<Poll>, results: seq<Poll>)

  datatype Step =
    | Send(agent: AgentId, event: ProviderEvent)
    | DropSender(agent: AgentId)
    | StartPoll(order: seq<AgentId>)
    | TryRecv
    | EndPoll

  function Act(s: System, step: Step): System {
    match step
    case Send(a, event) =>
      if a in s.channels && s.channels[a].open then
        s.(channels := s.channels[a := s.channels[a].(buffer := s.channels[a].buffer + [event])],
           sent := s.sent + [FromProvider(a, event)])
      else s
    case DropSender(a) =>
      if a in s.channels then s.(channels := s.channels[a := s.channels[a].(open := false)]) else s
    case StartPoll(order) =>
      if s.poll.None? && Valid(s.channels, NewPoll(order)) then s.(poll := Some(NewPoll(order))) else s
    case TryRecv =>
      if s.poll.Some? && Valid(s.channels, s.poll.value) && s.poll.value.next < |s.poll.value.order| then
        var (c, p) := Receive(s.channels, s.poll.value);
        s.(channels := c, poll := Some(p))
      else s
    case EndPoll =>
      if s.poll.Some? && s.poll.value.next == |s.poll.value.order| then
        s.(handed := s.handed + s.poll.value.events, poll := None, results := s.results + [s.poll.value])
      else s
  }

  function Run(s: System, steps: seq<Step>): System {
    if steps == [] then s else Act(Run(s, steps[..|steps| - 1]), steps[|steps| - 1])
  }

  predicate Fresh(s: System) {
    && s.sent == [] && s.handed == [] && s.poll == None && s.results == []
    && forall a | a in s.channels :: s.channels[a].buffer == []
  }

  /** Received so far: handed over, or collected by the poll under way. */
  function Received(s: System): seq<AgentEvent> {
    s.handed + if s.poll.Some? then s.poll.value.events else []
  }

  // ---------------------------------------------------------------- the invariant

  /** Received, then buffered: exactly what was sent, in order. */
  predicate InOrder(s: System) {
    forall a | a in s.channels :: Of(Received(s), a) + s.channels[a].buffer == Of(s.sent, a)
  }

  predicate Spent(channels: Channels, a: AgentId) {
    a in channels && !channels[a].open && channels[a].buffer == []
  }

  /** A poll has reported each receiver it has passed once, as disconnected only if it is spent. */
  predicate Reports(channels: Channels, p: Poll) {
    && Valid(channels, p)
    && multiset(p.empty) + multiset(p.disconnected) == multiset(p.order[..p.next])
    && forall i | 0 <= i < |p.disconnected| :: Spent(channels, p.disconnected[i])
  }

  predicate Inv(s: System) {
    && InOrder(s)
    && (s.poll.Some? ==> Reports(s.channels, s.poll.value))
    && forall i | 0 <= i < |s.results| ::
         s.results[i].next == |s.results[i].order| && Reports(s.channels, s.results[i])
  }

  lemma {:induction false} OfAppend(x: seq<AgentEvent>, y: seq<AgentEvent>, a: AgentId)
    ensures Of(x + y, a) == Of(x, a) + Of(y, a)
  {
    if y == [] {
      assert x + y == x;
    } else {
      var n := |y| - 1;
      assert (x + y)[..|x + y| - 1] == x + y[..n];
      OfAppend(x, y[..n], a);
      assert Of(x, a) + (Of(y[..n], a) + [y[n].event]) == Of(x, a) + Of(y[..n], a) + [y[n].event];
    }
  }

  lemma ResultsStay(s: System, after: Channels)
    requires Inv(s)
    requires forall a | a in s.channels :: a in after
    requires forall a | Spent(s.channels, a) :: Spent(after, a)
    ensures s.poll.Some? ==> Reports(after, s.poll.value)
    ensures forall i | 0 <= i < |s.results| :: Reports(after, s.results[i])
  {
  }

  lemma SendKeepsOrder(s: System, t: System, a: AgentId, event: ProviderEvent)
    requires InOrder(s) && a in s.channels && Received(t) == Received(s)
    requires t.channels == s.channels[a := s.channels[a].(buffer := s.channels[a].buffer + [event])]
    requires t.sent == s.sent + [FromProvider(a, event)]
    ensures InOrder(t)
  {
  }

  lemma SendKeeps(s: System, a: AgentId, event: ProviderEvent)
    requires Inv(s) && a in s.channels && s.channels[a].open
    ensures Inv(Act(s, Send(a, event)))
  {
    var t := Act(s, Send(a, event));
    ResultsStay(s, t.channels);
    SendKeepsOrder(s, t, a, event);
  }

  lemma DropKeeps(s: System, a: AgentId)
    requires Inv(s)
    ensures Inv(Act(s, DropSender(a)))
  {
    var t := Act(s, DropSender(a));
    ResultsStay(s, t.channels);
    assert Received(t) == Received(s);
    forall b | b in t.channels
      ensures Of(Received(t), b) + t.channels[b].buffer == Of(t.sent, b)
    {
      assert Of(Received(s), b) + s.channels[b].buffer == Of(s.sent, b);
    }
  }

  /** An event received moves from the buffer's front to the end of what was received. */
  lemma TakeKeepsOrder(s: System, t: System, a: AgentId)
    requires InOrder(s) && a in s.channels && s.channels[a].buffer != [] && t.sent == s.sent
    requires t.channels == s.channels[a := s.channels[a].(buffer := s.channels[a].buffer[1..])]
    requires Received(t) == Received(s) + [FromProvider(a, s.channels[a].buffer[0])]
    ensures InOrder(t)
  {
  }

  lemma ReceiveReports(channels: Channels, p: Poll)
    requires Reports(channels, p) && p.next < |p.order| && channels[p.order[p.next]].buffer == []
    ensures Reports(channels, Receive(channels, p).1)
  {
    assert p.order[..p.next + 1] == p.order[..p.next] + [p.order[p.next]];
  }

  lemma TryRecvKeeps(s: System)
    requires Inv(s)
    ensures Inv(Act(s, TryRecv))
  {
    var t := Act(s, TryRecv);
    if t != s {
      var p := s.poll.value;
      var a := p.order[p.next];
      ResultsStay(s, t.channels);
      if s.channels[a].buffer != [] {
        assert Received(t) == Received(s) + [FromProvider(a, s.channels[a].buffer[0])];
        TakeKeepsOrder(s, t, a);
      } else {
        ReceiveReports(s.channels, p);
        assert Received(t) == Received(s);
      }
    }
  }

  lemma StepKeepsInv(s: System, step: Step)
    requires Inv(s)
    ensures Inv(Act(s, step))
  {
    match step
    case Send(a, event) =>
      if a in s.channels && s.channels[a].open { SendKeeps(s, a, event); }
    case DropSender(a) => DropKeeps(s, a);
    case StartPoll(order) => assert s.handed + [] == s.handed; assert order[..0] == [];
    case TryRecv => TryRecvKeeps(s);
    case EndPoll => assert Received(Act(s, step)) == Received(s);
  }

  lemma StepKeepsReceivers(s: System, step: Step)
    ensures Act(s, step).channels.Keys == s.channels.Keys
  {
  }

  lemma {:induction false} RunKeepsReceivers(s: System, steps: seq<Step>)
    ensures Run(s, steps).channels.Keys == s.channels.Keys
  {
    if steps != [] {
      RunKeepsReceivers(s, steps[..|steps| - 1]);
      StepKeepsReceivers(Run(s, steps[..|steps| - 1]), steps[|steps| - 1]);
    }
  }

  lemma {:induction false} RunKeepsInv(s: System, steps: seq<Step>)
    requires Inv(s)
    ensures Inv(Run(s, steps))
  {
    if steps != [] {
      RunKeepsInv(s, steps[..|steps| - 1]);
      StepKeepsInv(Run(s, steps[..|steps| - 1]), steps[|steps| - 1]);
    }
  }

  lemma FreshInv(s: System)
    requires Fresh(s)
    ensures Inv(s)
  {
  }

  // ---------------------------------------------------------------- main results

  predicate Distinct(order: seq<AgentId>) {
    forall i, j | 0 <= i < j < |order| :: order[i] != order[j]
  }

  /**
   Exactly once and in order: under any interleaving of sends, drops and receives, what was
   handed over and what the poll holds, followed by what is buffered, is what the agent sent.
   */
  lemma ExactlyOnceInOrder(s: System, steps: seq<Step>, a: AgentId)
    requires Fresh(s) && a in s.channels
    ensures var t := Run(s, steps);
            a in t.channels && Of(Received(t), a) + t.channels[a].buffer == Of(t.sent, a)
  {
    FreshInv(s);
    RunKeepsInv(s, steps);
    RunKeepsReceivers(s, steps);
  }

  lemma {:induction false} DistinctOnce(order: seq<AgentId>, a: AgentId)
    requires Distinct(order)
    ensures multiset(order)[a] == if a in order then 1 else 0
  {
    if order != [] {
      var n := |order| - 1;
      DistinctOnce(order[..n], a);
      assert order == order[..n] + [order[n]];
      assert order[n] !in order[..n];
    }
  }

  /**
   A finished poll of distinct receivers has reported each of them once, as empty or as
   disconnected; one reported disconnected has had all it sent received, then and ever after.
   */
  lemma FinishedPollReports(s: System, steps: seq<Step>, i: nat, a: AgentId)
    requires Fresh(s) && i < |Run(s, steps).results|
    ensures var p := Run(s, steps).results[i];
            Distinct(p.order) ==>
              multiset(p.empty)[a] + multiset(p.disconnected)[a] == if a in p.order then 1 else 0
    ensures var t := Run(s, steps);
            a in t.results[i].disconnected ==>
              a in t.channels && !t.channels[a].open && Of(Received(t), a) == Of(t.sent, a)
  {
    FreshInv(s);
    RunKeepsInv(s, steps);
    var t := Run(s, steps);
    var p := t.results[i];
    assert p.order[..p.next] == p.order;
    if Distinct(p.order) {
      DistinctOnce(p.order, a);
      assert (multiset(p.empty) + multiset(p.disconnected))[a] == multiset(p.order)[a];
    }
    if a in p.disconnected {
      var k :| 0 <= k < |p.disconnected| && p.disconnected[k] == a;
      assert Spent(t.channels, p.disconnected[k]);
      assert Of(Received(t), a) + [] == Of(t.sent, a);
    }
  }

  // ---------------------------------------------------------------- what was buffered when a poll began

  predicate InPoll(step: Step) {
    step.Send? || step.DropSender? || step.TryRecv?
  }

  /** The poll that began in s, some steps later: it has received all that the agents it has passed had sent by then. */
  predicate CaughtUp(s: System, t: System) {
    && t.poll.Some? && s.poll.Some? && t.poll.value.order == s.poll.value.order && t.handed == s.handed
    && t.channels.Keys == s.channels.Keys && t.poll.value.next <= |t.poll.value.order|
    && (forall a | a in s.channels :: |Of(t.sent, a)| >= |Of(s.sent, a)|)
    && forall i | 0 <= i < t.poll.value.next ::
         t.poll.value.order[i] in s.channels
         && |Of(Received(t), t.poll.value.order[i])| >= |Of(s.sent, t.poll.value.order[i])|
  }

  lemma SendsGrow(t: System, step: Step, a: AgentId)
    requires InPoll(step)
    ensures |Of(Act(t, step).sent, a)| >= |Of(t.sent, a)|
    ensures |Of(Received(Act(t, step)), a)| >= |Of(Received(t), a)|
  {
    var z := Act(t, step);
    if step.Send? && z != t {
      OfAppend(t.sent, [FromProvider(step.agent, step.event)], a);
    } else if step.TryRecv? && z != t {
      var b := t.poll.value.order[t.poll.value.next];
      if t.channels[b].buffer != [] {
        var e := FromProvider(b, t.channels[b].buffer[0]);
        assert Received(z) == Received(t) + [e];
        OfAppend(Received(t), [e], a);
      } else {
        assert Received(z) == Received(t);
      }
    } else {
      assert Received(z) == Received(t);
    }
  }

  /** A receive that moves on to the next receiver has found everything sent received. */
  lemma PassedIsReceived(t: System)
    requires Inv(t) && t.poll.Some?
    ensures var z := Act(t, TryRecv);
      z.poll.Some? && z.poll.value.order == t.poll.value.order
      && (z.poll.value.next == t.poll.value.next
          || (z.poll.value.next == t.poll.value.next + 1 <= |t.poll.value.order|
              && var a := t.poll.value.order[t.poll.value.next];
                 Of(Received(t), a) == Of(t.sent, a)))
  {
    var p := t.poll.value;
    if p.next < |p.order| && t.channels[p.order[p.next]].buffer == [] {
      assert Of(Received(t), p.order[p.next]) + [] == Of(t.sent, p.order[p.next]);
    }
  }

  lemma CaughtUpStays(s: System, t: System, step: Step)
    requires Inv(t) && CaughtUp(s, t) && InPoll(step)
    ensures CaughtUp(s, Act(t, step))
  {
    var z := Act(t, step);
    StepKeepsReceivers(t, step);
    forall a: AgentId
      ensures |Of(z.sent, a)| >= |Of(t.sent, a)| && |Of(Received(z), a)| >= |Of(Received(t), a)|
    {
      SendsGrow(t, step, a);
    }
    if step.TryRecv? { PassedIsReceived(t); }
  }

  lemma {:induction false} CaughtUpAfter(s: System, steps: seq<Step>)
    requires Inv(s) && s.poll.Some? && s.poll.value.next == 0
    requires forall i | 0 <= i < |steps| :: InPoll(steps[i])
    ensures Inv(Run(s, steps)) && CaughtUp(s, Run(s, steps))
  {
    RunKeepsInv(s, steps);
    if steps != [] {
      var n := |steps| - 1;
      CaughtUpAfter(s, steps[..n]);
      CaughtUpStays(s, Run(s, steps[..n]), steps[n]);
    }
  }

  /** Under any interleaving, a poll that has come to its end has received what was buffered when it began. */
  lemma BufferedIsReceived(s: System, steps: seq<Step>, i: nat)
    requires Inv(s) && s.poll.Some? && s.poll.value.next == 0 && s.poll.value.events == []
    requires forall k | 0 <= k < |steps| :: InPoll(steps[k])
    requires i < |s.poll.value.order| && Run(s, steps).poll.Some?
    requires Run(s, steps).poll.value.next == |s.poll.value.order|
    ensures var a := s.poll.value.order[i];
      a in s.channels && |Of(Run(s, steps).poll.value.events, a)| >= |s.channels[a].buffer|
  {
    CaughtUpAfter(s, steps);
    var t := Run(s, steps);
    var a := s.poll.value.order[i];
    assert t.poll.value.order[i] in s.channels;
    assert s.handed + [] == s.handed;
    OfAppend(s.handed, t.poll.value.events, a);
    assert Of(Received(s), a) + s.channels[a].buffer == Of(s.sent, a);
  }

  /** The uninterrupted poll is the run of its single receives. */
  lemma {:induction false} ReceiveAllIsRun(s: System) returns (steps: seq<Step>)
    requires s.poll.Some? && Valid(s.channels, s.poll.value)
    ensures forall i | 0 <= i < |steps| :: steps[i] == TryRecv
    ensures var (c, p) := ReceiveAll(s.channels, s.poll.value);
            Run(s, steps) == s.(channels := c, poll := Some(p))
    decreases |s.poll.value.order| - s.poll.value.next, Waiting(s.channels, s.poll.value)
  {
    if s.poll.value.next == |s.poll.value.order| {
      steps := [];
    } else {
      var t := Act(s, TryRecv);
      var rest := ReceiveAllIsRun(t);
      steps := [TryRecv] + rest;
      RunFirst(s, TryRecv, rest);
    }
  }

  lemma {:induction false} RunFirst(s: System, step: Step, rest: seq<Step>)
    ensures Run(s, [step] + rest) == Run(Act(s, step), rest)
  {
    if rest == [] {
      assert ([step] + rest)[..0] == [];
    } else {
      assert ([step] + rest)[..|rest|] == [step] + rest[..|rest| - 1];
      RunFirst(s, step, rest[..|rest| - 1]);
    }
  }

  /** One receive moves nothing but the present receiver's next event. */
  lemma ReceiveAt(channels: Channels, p: Poll, a: AgentId)
    requires Valid(channels, p) && p.next < |p.order| && a in channels
    ensures var (c, q) := Receive(channels, p);
            && Valid(c, q) && a in c && c[a].open == channels[a].open && q.order == p.order
            && Of(q.events, a) + c[a].buffer == Of(p.events, a) + channels[a].buffer
            && (a != p.order[p.next] ==> c[a] == channels[a])
            && (q.next == p.next || (q.next == p.next + 1 && channels[p.order[p.next]].buffer == []))
  {
  }

  /** The poll still has this receiver before it. */
  predicate Ahead(order: seq<AgentId>, next: nat, a: AgentId) {
    exists i :: next <= i < |order| && order[i] == a
  }

  lemma AheadFrom(order: seq<AgentId>, next: nat, a: AgentId)
    requires next < |order|
    ensures Ahead(order, next, a) <==> order[next] == a || Ahead(order, next + 1, a)
  {
  }

  /** A poll nobody interferes with empties every receiver it visits, in order, and no other. */
  lemma {:induction false} ReceiveAllEmpties(channels: Channels, p: Poll, a: AgentId)
    requires Valid(channels, p) && a in channels
    ensures var (c, q) := ReceiveAll(channels, p);
            && a in c && c[a].open == channels[a].open && q.order == p.order && q.next == |p.order|
            && Of(q.events, a) + c[a].buffer == Of(p.events, a) + channels[a].buffer
            && if Ahead(p.order, p.next, a) then c[a].buffer == [] else c[a] == channels[a]
    decreases |p.order| - p.next, Waiting(channels, p)
  {
    if p.next < |p.order| {
      var (c, q) := Receive(channels, p);
      ReceiveAt(channels, p, a);
      ReceiveAllEmpties(c, q, a);
      AheadFrom(p.order, p.next, a);
    }
  }

  /** Each receiver passed is reported once: as empty while its sender lives, as disconnected if not. */
  predicate Sorted(channels: Channels, p: Poll)
    requires Valid(channels, p)
  {
    && multiset(p.empty) + multiset(p.disconnected) == multiset(p.order[..p.next])
    && AllOpen(channels, p.empty, true)
    && AllOpen(channels, p.disconnected, false)
  }

  lemma TakeSorts(channels: Channels, c: Channels, p: Poll, q: Poll)
    requires Valid(channels, p) && Valid(c, q) && Sorted(channels, p)
    requires forall a | a in channels :: a in c && c[a].open == channels[a].open
    requires q.order == p.order && q.next == p.next && q.empty == p.empty && q.disconnected == p.disconnected
    ensures Sorted(c, q)
  {
  }

  /** One more report for one more receiver passed. */
  lemma ReportTallies(passed: seq<AgentId>, a: AgentId, empty: seq<AgentId>, disconnected: seq<AgentId>)
    requires multiset(empty) + multiset(disconnected) == multiset(passed)
    ensures multiset(empty + [a]) + multiset(disconnected) == multiset(passed + [a])
    ensures multiset(empty) + multiset(disconnected + [a]) == multiset(passed + [a])
  {
  }

  predicate AllOpen(channels: Channels, agents: seq<AgentId>, open: bool) {
    forall a | a in agents :: a in channels && channels[a].open == open
  }

  lemma OneMoreOpen(channels: Channels, agents: seq<AgentId>, a: AgentId, open: bool)
    requires AllOpen(channels, agents, open) && a in channels && channels[a].open == open
    ensures AllOpen(channels, agents + [a], open)
  {
  }

  lemma ReportSorts(channels: Channels, p: Poll)
    requires Valid(channels, p) && p.next < |p.order| && Sorted(channels, p)
    requires channels[p.order[p.next]].buffer == []
    ensures Sorted(channels, Receive(channels, p).1)
  {
    var a := p.order[p.next];
    assert p.order[..p.next + 1] == p.order[..p.next] + [a];
    ReportTallies(p.order[..p.next], a, p.empty, p.disconnected);
    OneMoreOpen(channels, if channels[a].open then p.empty else p.disconnected, a, channels[a].open);
  }

  lemma ReceiveSorts(channels: Channels, p: Poll)
    requires Valid(channels, p) && p.next < |p.order| && Sorted(channels, p)
    ensures var (c, q) := Receive(channels, p); Valid(c, q) && Sorted(c, q)
  {
    var (c, q) := Receive(channels, p);
    if channels[p.order[p.next]].buffer == [] {
      ReportSorts(channels, p);
    } else {
      TakeSorts(channels, c, p, q);
    }
  }

  lemma {:induction false} ReceiveAllSorts(channels: Channels, p: Poll)
    requires Valid(channels, p) && Sorted(channels, p)
    ensures var (c, q) := ReceiveAll(channels, p);
            Valid(c, q) && q.order == p.order && q.next == |p.order| && Sorted(c, q)
    decreases |p.order| - p.next, Waiting(channels, p)
  {
    if p.next < |p.order| {
      var (c, q) := Receive(channels, p);
      ReceiveSorts(channels, p);
      ReceiveAllSorts(c, q);
    }
  }
}
