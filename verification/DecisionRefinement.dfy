/**
 What the protocol invariant means for a caller: the asynchronous protocol refines the
 sequential loop, loses no reflection round, never has two tokens, and can always be
 driven to answer everything unless the channel was closed on a queued response.
 */
module DecisionRefinement {
  import opened Wrappers
  import opened DecisionProtocol

  // ----- Safety -----

  /** Each answer of the sequential loop, from the engine call it stands for. */
  lemma {:induction false} SequentialAnswer(decide: Engine, sent: seq<Request>, i: nat)
    requires i < |sent|
    ensures Sequential(decide, sent).responses[i] ==
      MakeResponse(sent[i], decide(i, sent[i], Sequential(decide, sent[..i]).round))
    decreases |sent|
  {
    var n := |sent| - 1;
    if i < n {
      SequentialAnswer(decide, sent[..n], i);
      assert sent[..n][..i] == sent[..i];
    }
  }

  lemma DeliveredPrefix(decide: Engine, y: System)
    requires Reachable(decide, y)
    ensures |y.delivered| <= |y.sent|
    ensures y.delivered == Sequential(decide, y.sent).responses[..|y.delivered|]
  {
    ReachableInv(decide, y);
  }

  /** The i-th response delivered answers the i-th request, decided from the round decision i-1 left. */
  lemma DeliveredRefinesSequential(decide: Engine, y: System)
    requires Reachable(decide, y)
    ensures |y.delivered| <= |y.sent|
    ensures y.delivered <= Sequential(decide, y.sent).responses
    ensures forall i | 0 <= i < |y.delivered| ::
      y.delivered[i] == MakeResponse(y.sent[i], decide(i, y.sent[i], Sequential(decide, y.sent[..i]).round))
  {
    DeliveredPrefix(decide, y);
    forall i | 0 <= i < |y.delivered|
      ensures y.delivered[i] == MakeResponse(y.sent[i], decide(i, y.sent[i], Sequential(decide, y.sent[..i]).round))
    {
      SequentialAnswer(decide, y.sent, i);
    }
  }

  /** No lost update: an idle slot holds the round of its last answer, and a thread starts from it. */
  lemma NoLostRound(decide: Engine, y: System)
    requires Reachable(decide, y)
    ensures |y.delivered| <= |y.sent|
    ensures y.slot.status.Idle? ==> y.slot.round == Sequential(decide, y.sent[..|y.delivered|]).round
    ensures forall t | t in y.slot.threads && t.Deciding? ::
      t.round == Sequential(decide, y.sent[..|y.delivered|]).round
  {
    ReachableInv(decide, y);
    SequentialPrefix(decide, y.sent, |y.delivered|);
    forall t | t in y.slot.threads && t.Deciding?
      ensures t.round == Sequential(decide, y.sent[..|y.delivered|]).round
    {
      assert t == y.slot.threads[0];
    }
  }

  predicate Collectable(s: Slot) {
    s.responses != [] || s.fallback.Some?
  }

  /** One token at a time; Thinking says exactly that there is one; the cells are written before they are read. */
  lemma OneToken(decide: Engine, y: System)
    requires Reachable(decide, y)
    ensures Outstanding(y) + InHand(y) <= 1
    ensures !y.slot.status.Stopped? ==> (y.slot.status.Thinking? <==> Outstanding(y) + InHand(y) == 1)
    ensures Collectable(y.slot) ==> y.slot.pendingRound.Some?
    ensures (exists t :: t in y.slot.threads && t.Storing?) ==> y.slot.fallback == None
  {
    ReachableInv(decide, y);
  }

  /** decision_count and error_count, between polls and before any stop. */
  lemma Accounting(decide: Engine, y: System)
    requires Reachable(decide, y)
    ensures y.slot.decisionCount == |y.delivered| + Outstanding(y)
    ensures y.main.Outside? && !y.slot.status.Stopped? ==>
      && y.slot.decisionCount == |y.delivered| + (if y.slot.status.Thinking? then 1 else 0)
      && y.slot.errorCount == CountErrors(y.delivered)
    ensures y.slot.errorCount <= CountErrors(y.delivered)
  {
    ReachableInv(decide, y);
    assert y.delivered[..|y.delivered|] == y.delivered;
  }

  /** Stopped is absorbing, and a stopped slot starts no decision. */
  lemma {:induction false} StoppedIsAbsorbing(decide: Engine, y: System, steps: seq<Step>)
    requires y.slot.status.Stopped?
    ensures Run(decide, y, steps).slot.status.Stopped?
    ensures Run(decide, y, steps).slot.decisionCount == y.slot.decisionCount
    ensures Run(decide, y, steps).slot.errorCount == y.slot.errorCount
    ensures Run(decide, y, steps).slot.round == y.slot.round
    decreases |steps|
  {
    if steps != [] {
      StoppedIsAbsorbing(decide, Act(decide, y, steps[0]), steps[1..]);
    }
  }

  // ----- Progress -----

  lemma {:induction false} RunAppend(decide: Engine, y: System, a: seq<Step>, b: seq<Step>)
    ensures Run(decide, y, a + b) == Run(decide, Run(decide, y, a), b)
    decreases |a|
  {
    if a == [] {
      assert a + b == b;
    } else {
      assert (a + b)[1..] == a[1..] + b;
      RunAppend(decide, Act(decide, y, a[0]), a[1..], b);
    }
  }

  lemma ReachableRun(decide: Engine, y: System, steps: seq<Step>)
    requires Reachable(decide, y)
    ensures Reachable(decide, Run(decide, y, steps))
  {
    var before :| y == Run(decide, INITIAL, before);
    RunAppend(decide, INITIAL, before, steps);
  }

  function MainRank(y: System): nat {
    match y.main
    case Outside => 0
    case Clearing(_) => 1
    case CheckingFallback => 2
    case Draining(_, _) => 3 + |y.slot.responses|
  }

  /** The rest of this poll will deliver something. */
  predicate WillCollect(y: System) {
    || (y.main.Draining? && !y.main.received && (CanReceive(y.slot) || y.slot.fallback.Some?))
    || (y.main.CheckingFallback? && y.slot.fallback.Some?)
  }

  /** What a stretch of steps without a new request, a stop or a closed channel leaves alone. */
  predicate Continues(y: System, z: System) {
    && z.sent == y.sent
    && z.dropped == y.dropped
    && |z.delivered| >= |y.delivered|
    && z.slot.status.Stopped? == y.slot.status.Stopped?
  }

  lemma {:induction false} FinishPoll(decide: Engine, y: System) returns (steps: seq<Step>)
    ensures var z := Run(decide, y, steps);
      && z.main.Outside? && Continues(y, z)
      && z.slot.decisionCount == y.slot.decisionCount
      && (WillCollect(y) ==> |z.delivered| > |y.delivered|)
    decreases MainRank(y)
  {
    if y.main.Outside? {
      steps := [];
    } else {
      var rest := FinishPoll(decide, Act(decide, y, MainStep));
      steps := [MainStep] + rest;
      assert steps[1..] == rest;
    }
  }

  function ThreadRank(t: Thread): nat {
    match t
    case Deciding(_, _, _) => 3
    case Sending(_) => 2
    case Storing(_) => 1
  }

  lemma {:induction false} FinishThread(decide: Engine, y: System) returns (steps: seq<Step>)
    requires |y.slot.threads| <= 1
    ensures var z := Run(decide, y, steps);
      && z.slot.threads == [] && Continues(y, z) && z.main == y.main && z.delivered == y.delivered
      && z.slot.decisionCount == y.slot.decisionCount
    decreases if y.slot.threads == [] then 0 else ThreadRank(y.slot.threads[0])
  {
    if y.slot.threads == [] {
      steps := [];
    } else {
      var rest := FinishThread(decide, Act(decide, y, ThreadStep(0)));
      steps := [ThreadStep(0)] + rest;
      assert steps[1..] == rest;
    }
  }

  /** Start a poll and see it through. */
  lemma WholePoll(decide: Engine, y: System) returns (steps: seq<Step>)
    requires Inv(decide, y) && y.main.Outside?
    ensures var z := Run(decide, y, steps);
      && z.main.Outside? && Continues(y, z) && Inv(decide, z)
      && z.slot.decisionCount == PollAndProcess(y.slot).decisionCount
      && (CanReceive(y.slot) || y.slot.fallback.Some? ==> |z.delivered| > |y.delivered|)
  {
    var rest := FinishPoll(decide, Act(decide, y, MainStep));
    steps := [MainStep] + rest;
    assert steps[1..] == rest;
    RunKeepsInv(decide, y, steps);
  }

  lemma AnswerOutstanding(decide: Engine, y: System) returns (steps: seq<Step>)
    requires Inv(decide, y) && y.main.Outside? && y.dropped == [] && Outstanding(y) == 1
    ensures var z := Run(decide, y, steps);
      z.main.Outside? && Continues(y, z) && Inv(decide, z) && |z.delivered| > |y.delivered|
  {
    var thread := FinishThread(decide, y);
    RunKeepsInv(decide, y, thread);
    var y1 := Run(decide, y, thread);
    assert Outstanding(y1) == 1;
    var poll := WholePoll(decide, y1);
    steps := thread + poll;
    RunAppend(decide, y, thread, poll);
  }

  lemma AnswerOne(decide: Engine, y: System) returns (steps: seq<Step>)
    requires Inv(decide, y) && y.main.Outside? && y.dropped == []
    requires !y.slot.status.Stopped? && |y.delivered| < |y.sent|
    ensures var z := Run(decide, y, steps);
      z.main.Outside? && Continues(y, z) && Inv(decide, z) && |z.delivered| > |y.delivered|
  {
    if Outstanding(y) == 1 {
      steps := AnswerOutstanding(decide, y);
    } else {
      assert y.slot.status.Idle? && y.slot.requests != [];
      steps := WholePoll(decide, y);
      var y1 := Run(decide, y, steps);
      if |y1.delivered| == |y.delivered| {
        assert Outstanding(y1) == 1;
        var more := AnswerOutstanding(decide, y1);
        RunAppend(decide, y, steps, more);
        steps := steps + more;
      }
    }
  }

  lemma {:induction false} AnswerAll(decide: Engine, y: System) returns (steps: seq<Step>)
    requires Inv(decide, y) && y.main.Outside? && y.dropped == [] && !y.slot.status.Stopped?
    ensures var z := Run(decide, y, steps);
      Continues(y, z) && Inv(decide, z) && |z.delivered| == |y.sent|
    decreases |y.sent| - |y.delivered|
  {
    if |y.delivered| == |y.sent| {
      steps := [];
    } else {
      var first := AnswerOne(decide, y);
      var rest := AnswerAll(decide, Run(decide, y, first));
      steps := first + rest;
      RunAppend(decide, y, first, rest);
    }
  }

  lemma {:induction false} DroppedStays(decide: Engine, y: System, steps: seq<Step>)
    ensures |Run(decide, y, steps).dropped| >= |y.dropped|
    decreases |steps|
  {
    if steps != [] {
      DroppedStays(decide, Act(decide, y, steps[0]), steps[1..]);
    }
  }

  /** Some continuation delivers the sequential loop's answer to every request sent so far. */
  ghost predicate CanCatchUp(decide: Engine, y: System) {
    exists steps ::
      var z := Run(decide, y, steps);
      z.sent == y.sent && z.delivered == Sequential(decide, y.sent).responses
  }

  /**
   A slot that has not been stopped can still answer everything exactly when no response
   was thrown away: the channel was closed, if at all, only while its queue was empty.
   */
  lemma CatchesUpUnlessDropped(decide: Engine, y: System)
    requires Reachable(decide, y) && !y.slot.status.Stopped?
    ensures CanCatchUp(decide, y) <==> y.dropped == []
  {
    ReachableInv(decide, y);
    if y.dropped == [] {
      var first := FinishPoll(decide, y);
      RunKeepsInv(decide, y, first);
      var rest := AnswerAll(decide, Run(decide, y, first));
      RunAppend(decide, y, first, rest);
      var z := Run(decide, y, first + rest);
      assert z.sent[..|z.sent|] == z.sent;
      assert z.sent == y.sent && z.delivered == Sequential(decide, y.sent).responses;
    } else {
      forall steps
        ensures var z := Run(decide, y, steps);
          !(z.sent == y.sent && z.delivered == Sequential(decide, y.sent).responses)
      {
        DroppedStays(decide, y, steps);
        RunKeepsInv(decide, y, steps);
        assert Outstanding(Run(decide, y, steps)) >= 1;
      }
    }
  }

  lemma RunCons(decide: Engine, y: System, step: Step, rest: seq<Step>)
    ensures Run(decide, y, [step] + rest) == Run(decide, Act(decide, y, step), rest)
  {
  }

  /** Closing the channel on a queued response leaves the slot Thinking with nothing to collect, for good. */
  lemma ClosingOnAQueuedResponseLosesIt(decide: Engine, y: System)
    requires Reachable(decide, y) && y.main.Outside? && !y.slot.status.Stopped? && y.slot.responses != []
    ensures var z := Act(decide, y, DropMailSender);
      && z.slot.status.Thinking? && z.slot.threads == [] && !Collectable(z.slot)
      && z.dropped == y.dropped + y.slot.responses
      && !CanCatchUp(decide, z)
  {
    ReachableInv(decide, y);
    var z := Act(decide, y, DropMailSender);
    assert Run(decide, z, []) == z;
    RunCons(decide, y, DropMailSender, []);
    assert [DropMailSender] + [] == [DropMailSender];
    ReachableRun(decide, y, [DropMailSender]);
    CatchesUpUnlessDropped(decide, z);
  }

  /** Closing the channel costs an answer exactly when a response is queued. */
  lemma CloseLosesExactlyQueued(decide: Engine, y: System)
    requires Reachable(decide, y) && y.main.Outside? && !y.slot.status.Stopped?
    requires y.slot.mailSender && y.dropped == []
    ensures CanCatchUp(decide, Act(decide, y, DropMailSender)) <==> y.slot.responses == []
  {
    var z := Act(decide, y, DropMailSender);
    RunCons(decide, y, DropMailSender, []);
    assert [DropMailSender] + [] == [DropMailSender];
    ReachableRun(decide, y, [DropMailSender]);
    CatchesUpUnlessDropped(decide, z);
  }

  /** Such a state is reached after one request, one poll and two thread steps. */
  lemma QueuedResponseIsReachable(decide: Engine, q: Request)
    ensures exists y :: Reachable(decide, y) && y.main.Outside? && y.slot.status.Thinking? && y.slot.responses != []
  {
    var y1 := Act(decide, INITIAL, SendRequest(q));
    assert y1.slot.requests == [q];
    var y4 := Act(decide, Act(decide, Act(decide, y1, MainStep), MainStep), MainStep);
    assert y4.main.Outside? && |y4.slot.threads| == 1;
    var y6 := Act(decide, Act(decide, y4, ThreadStep(0)), ThreadStep(0));
    var s1 := [ThreadStep(0)];
    var s2 := [ThreadStep(0)] + s1;
    var s3 := [MainStep] + s2;
    var s4 := [MainStep] + s3;
    var s5 := [MainStep] + s4;
    var s6 := [SendRequest(q)] + s5;
    RunCons(decide, INITIAL, SendRequest(q), s5);
    RunCons(decide, y1, MainStep, s4);
    RunCons(decide, Act(decide, y1, MainStep), MainStep, s3);
    RunCons(decide, Act(decide, Act(decide, y1, MainStep), MainStep), MainStep, s2);
    RunCons(decide, y4, ThreadStep(0), s1);
    assert s1[1..] == [];
    assert Run(decide, Act(decide, y4, ThreadStep(0)), s1) == y6;
    assert y6 == Run(decide, INITIAL, s6);
  }

  // ----- The atomic poll -----

  datatype Polled = Polled(slot: Slot, responses: seq<Response>)

  predicate AnyError(rs: seq<Response>) {
    exists r :: r in rs && r.IsError()
  }

  /** A poll of one agent during which no background thread acts. */
  function Poll(s0: Slot): Polled {
    var s := PollAndProcess(s0);
    if CanReceive(s) then
      Polled(ClearThinking(s.(responses := []), AnyError(s.responses)), s.responses)
    else if s.fallback.Some? then
      Polled(ClearThinking(s.(fallback := None), s.fallback.value.IsError()), [s.fallback.value])
    else Polled(s, [])
  }

  function Repeat(n: nat): (steps: seq<Step>)
    ensures |steps| == n && forall i | 0 <= i < n :: steps[i] == MainStep
  {
    seq(n, _ => MainStep)
  }

  lemma {:induction false} DrainIsRun(decide: Engine, y: System, received: bool, hadError: bool) returns (n: nat)
    requires y.main == Draining(received, hadError) && y.slot.mailSender
    ensures Run(decide, y, Repeat(n)) ==
      y.(slot := y.slot.(responses := []),
         main := Draining(received || y.slot.responses != [], hadError || AnyError(y.slot.responses)),
         delivered := y.delivered + y.slot.responses)
    decreases |y.slot.responses|
  {
    if y.slot.responses == [] {
      n := 0;
      assert y.delivered + y.slot.responses == y.delivered;
    } else {
      var r, rest := y.slot.responses[0], y.slot.responses[1..];
      var y1 := Act(decide, y, MainStep);
      var m := DrainIsRun(decide, y1, true, hadError || r.IsError());
      n := m + 1;
      assert Repeat(n)[1..] == Repeat(m);
      assert y.slot.responses == [r] + rest;
      assert AnyError(y.slot.responses) <==> r.IsError() || AnyError(rest);
      assert y.delivered + [r] + rest == y.delivered + y.slot.responses;
    }
  }

  lemma RunMain(decide: Engine, y: System, n: nat)
    ensures Run(decide, y, Repeat(n + 1)) == Run(decide, Act(decide, y, MainStep), Repeat(n))
  {
    assert Repeat(n + 1) == [MainStep] + Repeat(n);
    RunCons(decide, y, MainStep, Repeat(n));
  }

  /** How a poll ends once the channel is drained. */
  function AfterDrain(s: Slot, received: bool, hadError: bool): Polled {
    if received then Polled(ClearThinking(s, hadError), [])
    else if s.fallback.Some? then
      Polled(ClearThinking(s.(fallback := None), s.fallback.value.IsError()), [s.fallback.value])
    else Polled(s, [])
  }

  /** Main-thread steps until the poll is over. */
  function ToOutside(y: System): System
    decreases MainRank(y)
  {
    if y.main.Outside? then y else ToOutside(MainAct(y))
  }

  lemma {:induction false} ToOutsideIsRun(decide: Engine, y: System) returns (n: nat)
    ensures Run(decide, y, Repeat(n)) == ToOutside(y)
    ensures forall k | 0 <= k < n :: !Run(decide, y, Repeat(k)).main.Outside?
    decreases MainRank(y)
  {
    if y.main.Outside? {
      n := 0;
    } else {
      var m := ToOutsideIsRun(decide, MainAct(y));
      n := m + 1;
      RunMain(decide, y, m);
      forall k | 0 <= k < n ensures !Run(decide, y, Repeat(k)).main.Outside? {
        if k > 0 { RunMain(decide, y, k - 1); } else { assert Repeat(0) == []; }
      }
    }
  }

  /** What the channel holds for the receiver. */
  function Receivable(s: Slot): seq<Response> {
    if s.mailSender then s.responses else []
  }

  /** The rest of a poll from where it drains the channel. */
  lemma {:induction false} DrainToOutside(y: System)
    requires y.main.Draining?
    ensures var s, rs := y.slot, Receivable(y.slot);
      var p := AfterDrain(s.(responses := if s.mailSender then [] else s.responses),
                          y.main.received || rs != [], y.main.hadError || AnyError(rs));
      ToOutside(y) == y.(slot := p.slot, main := Outside, delivered := y.delivered + rs + p.responses)
    decreases |y.slot.responses|
  {
    if CanReceive(y.slot) {
      var r, rest := y.slot.responses[0], y.slot.responses[1..];
      assert y.slot.responses == [r] + rest;
      assert AnyError(y.slot.responses) <==> r.IsError() || AnyError(rest);
      DrainToOutside(MainAct(y));
      assert y.delivered + [r] + rest == y.delivered + y.slot.responses;
    } else {
      assert y.delivered + [] + [] == y.delivered;
      assert !AnyError([]);
      var y1 := MainAct(y);
      var y2 := MainAct(y1);
      if !y.main.received && y.slot.fallback.Some? {
        assert ToOutside(y2) == MainAct(y2);
      } else {
        assert ToOutside(y1) == y2;
      }
    }
  }

  /** The atomic poll is one whole poll: main-thread steps alone, until the first that ends it. */
  lemma PollIsRun(decide: Engine, y: System) returns (n: nat)
    requires y.main.Outside?
    ensures n > 0
    ensures Run(decide, y, Repeat(n)) ==
      y.(slot := Poll(y.slot).slot, delivered := y.delivered + Poll(y.slot).responses)
    ensures forall k | 0 < k < n :: !Run(decide, y, Repeat(k)).main.Outside?
  {
    var y1 := MainAct(y);
    var m := ToOutsideIsRun(decide, y1);
    n := m + 1;
    RunMain(decide, y, m);
    forall k | 0 < k < n ensures !Run(decide, y, Repeat(k)).main.Outside? {
      RunMain(decide, y, k - 1);
    }
    DrainToOutside(y1);
    assert y.delivered + [] + Poll(y.slot).responses == y.delivered + Poll(y.slot).responses;
    assert y.delivered + y.slot.responses + [] == y.delivered + y.slot.responses;
  }
}
