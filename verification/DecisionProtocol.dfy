/**
 The asynchronous decision protocol between the main thread and the background
 threads of one decision agent, as a transition system on values.

 The main thread polls: it may start a decision, drains the response channel, falls
 back to the fallback cell, and then clears the Thinking status.  A started decision
 runs on its own thread: it decides, writes the pending reflection round, sends its
 response, and stores it in the fallback cell when the channel is closed.  Every one
 of these actions is a step of its own, so any interleaving is a sequence of steps.
 */
module DecisionProtocol {
  import opened Wrappers

  // ----- Data -----

  /** The reflection round is an unsigned byte. */
  type Round = r: int | 0 <= r < 256

  datatype Request = Request(workAgentId: string, situation: string, requiresHuman: bool, context: string)

  datatype Output = Output(actions: seq<string>, reasoning: string)

  /** What one call of the engine yields: its verdict, the prompt it was given and the round afterwards. */
  datatype Decision = Decision(verdict: Result<Output, string>, prompt: string, round: Round)

  /** The engine: its answer may depend on the request, the reflection round and on which call it is. */
  type Engine = (nat, Request, Round) -> Decision

  datatype Response = Response(
    workAgentId: string,
    situation: Option<string>,
    tier: Option<string>,
    output: Option<Output>,
    error: Option<string>,
    prompt: Option<string>,
    thinking: Option<string>)
  {
    predicate IsError() { error.Some? }
  }

  datatype Status = Idle | Thinking | Responding | Error(message: string) | Stopped(reason: string)

  /** A background thread, by the action it takes next. */
  datatype Thread =
    | Deciding(ticket: nat, request: Request, round: Round)
    | Sending(response: Response)
    | Storing(response: Response)

  /** A decision agent slot together with its two channels and the threads it has spawned. */
  datatype Slot = Slot(
    status: Status,
    decisionCount: nat,
    errorCount: nat,
    round: Round,
    pendingRound: Option<Round>,
    fallback: Option<Response>,
    requests: seq<Request>,
    responses: seq<Response>,
    mailSender: bool,
    threads: seq<Thread>)

  const NEW_SLOT := Slot(Idle, 0, 0, 0, None, None, [], [], true, [])

  // ----- Operations on the slot -----

  function Tier(situation: string, requiresHuman: bool): string {
    if requiresHuman then "Critical"
    else if situation == "error" || situation == "partial_completion" then "Complex"
    else if situation == "claims_completion" then "Medium"
    else if situation == "waiting_for_choice" || situation == "agent_idle" || situation == "rate_limit_recovery" then "Simple"
    else if situation == "task_starting" then "High"
    else "Medium"
  }

  function MakeResponse(q: Request, d: Decision): Response {
    match d.verdict
    case Ok(output) =>
      Response(q.workAgentId, Some(q.situation), Some(Tier(q.situation, q.requiresHuman)),
               Some(output), None, Some(d.prompt), Some(output.reasoning))
    case Err(message) =>
      Response(q.workAgentId, None, None, None, Some(message), None, None)
  }

  /** Start one decision if idle and a request is waiting; the thread takes a snapshot of the round. */
  function PollAndProcess(s: Slot): Slot {
    if s.status.Idle? && s.requests != [] then
      s.(status := Thinking,
         decisionCount := s.decisionCount + 1,
         requests := s.requests[1..],
         threads := s.threads + [Deciding(s.decisionCount, s.requests[0], s.round)])
    else s
  }

  function ClearThinking(s: Slot, hadError: bool): Slot {
    if s.status.Thinking? then
      s.(status := Idle,
         round := s.pendingRound.GetOr(s.round),
         pendingRound := None,
         errorCount := s.errorCount + if hadError then 1 else 0)
    else s
  }

  function Stop(s: Slot, reason: string): Slot { s.(status := Stopped(reason)) }

  function ResetError(s: Slot): Slot {
    if s.status.Error? then s.(status := Idle) else s
  }

  /** The main thread's non-blocking receive can hand over a response. */
  predicate CanReceive(s: Slot) { s.mailSender && s.responses != [] }

  function Without<T>(xs: seq<T>, i: nat): (ys: seq<T>)
    requires i < |xs|
    ensures |ys| == |xs| - 1
  {
    xs[..i] + xs[i + 1..]
  }

  /** The next action of background thread i. */
  function ThreadAct(decide: Engine, s: Slot, i: nat): Slot
    requires i < |s.threads|
  {
    match s.threads[i]
    case Deciding(ticket, request, round) =>
      var d := decide(ticket, request, round);
      s.(pendingRound := Some(d.round),
         threads := s.threads[i := Sending(MakeResponse(request, d))])
    case Sending(response) =>
      if s.mailSender then
        s.(responses := s.responses + [response], threads := Without(s.threads, i))
      else
        s.(threads := s.threads[i := Storing(response)])
    case Storing(response) =>
      s.(fallback := Some(response), threads := Without(s.threads, i))
  }

  // ----- The transition system -----

  /** Where the main thread is inside one poll. */
  datatype Main =
    | Outside
    | Draining(received: bool, hadError: bool)
    | CheckingFallback
    | Clearing(hadError: bool)

  /**
   The slot, the main thread's position, and what has happened so far: requests sent,
   responses delivered to the caller, and responses thrown away with the channel.
   */
  datatype System = System(
    slot: Slot,
    main: Main,
    sent: seq<Request>,
    delivered: seq<Response>,
    dropped: seq<Response>)

  const INITIAL := System(NEW_SLOT, Outside, [], [], [])

  datatype Step =
    | SendRequest(request: Request)
    | MainStep
    | ThreadStep(thread: nat)
    | DropMailSender
    | StopAgent(reason: string)
    | ResetErrorStatus

  function Deliver(y: System, r: Response): System {
    y.(delivered := y.delivered + [r])
  }

  function MainAct(y: System): System {
    var s := y.slot;
    match y.main
    case Outside =>
      y.(slot := PollAndProcess(s), main := Draining(false, false))
    case Draining(received, hadError) =>
      if CanReceive(s) then
        Deliver(y, s.responses[0]).(
          slot := s.(responses := s.responses[1..]),
          main := Draining(true, hadError || s.responses[0].IsError()))
      else if received then y.(main := Clearing(hadError))
      else y.(main := CheckingFallback)
    case CheckingFallback =>
      if s.fallback.Some? then
        Deliver(y, s.fallback.value).(slot := s.(fallback := None), main := Clearing(s.fallback.value.IsError()))
      else y.(main := Outside)
    case Clearing(hadError) =>
      y.(slot := ClearThinking(s, hadError), main := Outside)
  }

  function Send(y: System, q: Request): System {
    y.(slot := y.slot.(requests := y.slot.requests + [q]), sent := y.sent + [q])
  }

  function Drop(y: System): System {
    y.(slot := y.slot.(mailSender := false, responses := []), dropped := y.dropped + y.slot.responses)
  }

  /** One step; a step that is not possible leaves the system as it is. */
  function Act(decide: Engine, y: System, step: Step): System {
    match step
    case SendRequest(q) =>
      if y.slot.mailSender then Send(y, q) else y
    case MainStep => MainAct(y)
    case ThreadStep(i) =>
      if i < |y.slot.threads| then y.(slot := ThreadAct(decide, y.slot, i)) else y
    case DropMailSender =>
      if y.main.Outside? && y.slot.mailSender then Drop(y) else y
    case StopAgent(reason) =>
      if y.main.Outside? then y.(slot := Stop(y.slot, reason)) else y
    case ResetErrorStatus =>
      if y.main.Outside? then y.(slot := ResetError(y.slot)) else y
  }

  function Run(decide: Engine, y: System, steps: seq<Step>): System
    decreases |steps|
  {
    if steps == [] then y else Run(decide, Act(decide, y, steps[0]), steps[1..])
  }

  ghost predicate Reachable(decide: Engine, y: System) {
    exists steps :: y == Run(decide, INITIAL, steps)
  }

  // ----- The reference: one request at a time -----

  datatype Answered = Answered(responses: seq<Response>, round: Round)

  /** A loop with no threads: take a request, decide from the current round, keep the round it yields. */
  function Sequential(decide: Engine, requests: seq<Request>): (a: Answered)
    ensures |a.responses| == |requests|
  {
    if requests == [] then Answered([], 0)
    else
      var n := |requests| - 1;
      var before := Sequential(decide, requests[..n]);
      var d := decide(n, requests[n], before.round);
      Answered(before.responses + [MakeResponse(requests[n], d)], d.round)
  }

  /** The rounds the sequential loop passes through: rounds[k] once k requests are answered. */
  ghost function Rounds(decide: Engine, requests: seq<Request>): (rounds: seq<Round>)
    ensures |rounds| == |requests| + 1
  {
    if requests == [] then [0]
    else Rounds(decide, requests[..|requests| - 1]) + [Sequential(decide, requests).round]
  }

  function CountErrors(rs: seq<Response>): nat {
    if rs == [] then 0
    else CountErrors(rs[..|rs| - 1]) + if rs[|rs| - 1].IsError() then 1 else 0
  }

  /** Answers and rounds that follow from each other through the engine. */
  ghost predicate Plan(decide: Engine, sent: seq<Request>, answers: seq<Response>, rounds: seq<Round>) {
    && |answers| == |sent| && |rounds| == |sent| + 1
    && forall i | 0 <= i < |sent| ::
         var d := decide(i, sent[i], rounds[i]);
         answers[i] == MakeResponse(sent[i], d) && rounds[i + 1] == d.round
  }

  lemma PlanAt(decide: Engine, sent: seq<Request>, a: seq<Response>, r: seq<Round>, i: nat)
    requires Plan(decide, sent, a, r) && i < |sent|
    ensures a[i] == MakeResponse(sent[i], decide(i, sent[i], r[i]))
    ensures r[i + 1] == decide(i, sent[i], r[i]).round
  {
  }

  /** One more answer, decided from the last round. */
  lemma PlanNext(decide: Engine, sent: seq<Request>, a: seq<Response>, r: seq<Round>)
    requires sent != [] && Plan(decide, sent[..|sent| - 1], a, r)
    ensures var n := |sent| - 1;
      var d := decide(n, sent[n], r[n]);
      Plan(decide, sent, a + [MakeResponse(sent[n], d)], r + [d.round])
  {
    var n := |sent| - 1;
    var d := decide(n, sent[n], r[n]);
    var answers, rounds := a + [MakeResponse(sent[n], d)], r + [d.round];
    forall i | 0 <= i < |sent|
      ensures answers[i] == MakeResponse(sent[i], decide(i, sent[i], rounds[i]))
      ensures rounds[i + 1] == decide(i, sent[i], rounds[i]).round
    {
      if i < n {
        PlanAt(decide, sent[..n], a, r, i);
        assert answers[i] == a[i] && rounds[i] == r[i] && rounds[i + 1] == r[i + 1];
      }
    }
  }

  lemma {:induction false} SequentialIsPlan(decide: Engine, sent: seq<Request>)
    ensures Plan(decide, sent, Sequential(decide, sent).responses, Rounds(decide, sent))
    ensures Rounds(decide, sent)[|sent|] == Sequential(decide, sent).round
  {
    if sent != [] {
      var front := sent[..|sent| - 1];
      SequentialIsPlan(decide, front);
      PlanNext(decide, sent, Sequential(decide, front).responses, Rounds(decide, front));
    }
  }

  /** Answering a prefix gives a prefix of the answers and of the rounds. */
  lemma {:induction false} SequentialPrefix(decide: Engine, sent: seq<Request>, k: nat)
    requires k <= |sent|
    ensures Sequential(decide, sent[..k]).responses == Sequential(decide, sent).responses[..k]
    ensures Sequential(decide, sent[..k]).round == Rounds(decide, sent)[k]
    decreases |sent|
  {
    if k == |sent| {
      assert sent[..k] == sent;
      SequentialIsPlan(decide, sent);
    } else {
      var n := |sent| - 1;
      SequentialPrefix(decide, sent[..n], k);
      assert sent[..n][..k] == sent[..k];
    }
  }

  // ----- The protocol invariant -----

  /** Tokens: unsent threads, queued responses, the fallback, and responses lost with the channel. */
  function Outstanding(y: System): nat {
    |y.slot.threads| + |y.slot.responses| + |y.dropped| + if y.slot.fallback.Some? then 1 else 0
  }

  /** One response has been handed to the caller in the current poll and the status not yet cleared. */
  function InHand(y: System): nat {
    if y.main.Clearing? || (y.main.Draining? && y.main.received) then 1 else 0
  }

  /** A thread carries the work for request k: the ticket, the request and the round, or the answer. */
  predicate ThreadAnswers(t: Thread, k: nat, sent: seq<Request>, answers: seq<Response>, rounds: seq<Round>)
    requires k < |sent| == |answers| < |rounds|
  {
    match t
    case Deciding(ticket, q, round) => ticket == k && q == sent[k] && round == rounds[k]
    case Sending(r) => r == answers[k]
    case Storing(r) => r == answers[k]
  }

  /** There is at most one token, and whatever form it has it is the next answer. */
  predicate TokenIsNextAnswer(y: System, answers: seq<Response>, rounds: seq<Round>)
    requires |y.sent| == |answers| < |rounds|
  {
    var s, k := y.slot, |y.delivered|;
    && Outstanding(y) + InHand(y) <= 1
    && s.decisionCount == k + Outstanding(y) <= |y.sent|
    && y.delivered == answers[..k]
    && s.requests == y.sent[s.decisionCount..]
    && (s.threads != [] ==> ThreadAnswers(s.threads[0], k, y.sent, answers, rounds))
    && (s.responses != [] ==> s.responses[0] == answers[k])
    && (s.fallback.Some? ==> s.fallback.value == answers[k])
  }

  /** The fallback, its writer and a lossy close need a closed channel; a queued response an open one. */
  predicate ChannelConsistent(y: System) {
    var s := y.slot;
    && (s.threads != [] && s.threads[0].Storing? ==> !s.mailSender)
    && (s.responses != [] ==> s.mailSender)
    && (s.fallback.Some? ==> !s.mailSender)
    && (y.dropped != [] ==> !s.mailSender)
  }

  /** The main thread remembers whether what it was handed is an error. */
  predicate MainConsistent(y: System) {
    var k := |y.delivered|;
    match y.main
    case Draining(received, hadError) =>
      if received then k > 0 && hadError == y.delivered[k - 1].IsError() else !hadError
    case Clearing(hadError) => k > 0 && hadError == y.delivered[k - 1].IsError()
    case _ => true
  }

  /** The decision under way has written its round. */
  predicate RoundWritten(s: Slot) {
    s.threads != [] ==> !s.threads[0].Deciding?
  }

  predicate StatusConsistent(y: System, rounds: seq<Round>)
    requires y.slot.decisionCount < |rounds|
  {
    var s, n, tokens := y.slot, y.slot.decisionCount, Outstanding(y) + InHand(y);
    && (s.status.Idle? ==> tokens == 0 && s.pendingRound == None && s.round == rounds[n])
    && (s.status.Thinking? ==>
          && tokens == 1 && n > 0 && s.round == rounds[n - 1]
          && s.pendingRound == if RoundWritten(s) then Some(rounds[n]) else None)
    && (Outstanding(y) == 1 && RoundWritten(s) ==> s.pendingRound == Some(rounds[n]))
    && !s.status.Error? && !s.status.Responding?
  }

  predicate CountsConsistent(y: System)
    requires InHand(y) <= |y.delivered|
  {
    && y.slot.errorCount <= CountErrors(y.delivered)
    && (!y.slot.status.Stopped? ==> y.slot.errorCount == CountErrors(y.delivered[..|y.delivered| - InHand(y)]))
  }

  /** What every reachable state satisfies, given the answers and rounds of a plan. */
  predicate Follows(y: System, answers: seq<Response>, rounds: seq<Round>)
    requires |y.sent| == |answers| < |rounds|
  {
    && TokenIsNextAnswer(y, answers, rounds)
    && ChannelConsistent(y)
    && MainConsistent(y)
    && StatusConsistent(y, rounds)
    && CountsConsistent(y)
  }

  ghost predicate Inv(decide: Engine, y: System) {
    Follows(y, Sequential(decide, y.sent).responses, Rounds(decide, y.sent))
  }

  // ----- Every step keeps the invariant -----

  lemma SendFollows(y: System, q: Request, a: seq<Response>, r: seq<Round>, answer: Response, round: Round)
    requires |y.sent| == |a| && |r| == |a| + 1 && Follows(y, a, r) && y.slot.mailSender
    ensures Follows(Send(y, q), a + [answer], r + [round])
  {
    var n := y.slot.decisionCount;
    assert y.sent[n..] + [q] == (y.sent + [q])[n..];
    assert (a + [answer])[..|y.delivered|] == a[..|y.delivered|];
  }

  lemma PollStartFollows(y: System, a: seq<Response>, r: seq<Round>)
    requires |y.sent| == |a| && |r| == |a| + 1 && Follows(y, a, r) && y.main.Outside?
    ensures Follows(MainAct(y), a, r)
  {
    var s, k := y.slot, |y.delivered|;
    if s.status.Idle? && s.requests != [] {
      assert s.requests[0] == y.sent[k];
      assert y.sent[k..][1..] == y.sent[k + 1..];
    }
  }

  /** Handing the next answer to the caller. */
  lemma DeliverFollows(y: System, r: Response, a: seq<Response>)
    requires |y.delivered| < |a| && y.delivered == a[..|y.delivered|] && r == a[|y.delivered|]
    ensures y.delivered + [r] == a[..|y.delivered| + 1]
    ensures CountErrors(y.delivered + [r]) == CountErrors(y.delivered) + if r.IsError() then 1 else 0
    ensures (y.delivered + [r])[..|y.delivered|] == y.delivered == y.delivered[..|y.delivered|]
  {
  }

  lemma ReceiveFollows(y: System, a: seq<Response>, r: seq<Round>)
    requires |y.sent| == |a| && |r| == |a| + 1 && Follows(y, a, r) && y.main.Draining? && CanReceive(y.slot)
    ensures Follows(MainAct(y), a, r)
  {
    var x := y.slot.responses[0];
    assert y.main == Draining(false, false) && y.slot.responses[1..] == [];
    DeliverFollows(y, x, a);
  }

  lemma DrainedFollows(y: System, a: seq<Response>, r: seq<Round>)
    requires |y.sent| == |a| && |r| == |a| + 1 && Follows(y, a, r) && y.main.Draining? && !CanReceive(y.slot)
    ensures Follows(MainAct(y), a, r)
  {
  }

  lemma FallbackFollows(y: System, a: seq<Response>, r: seq<Round>)
    requires |y.sent| == |a| && |r| == |a| + 1 && Follows(y, a, r) && y.main.CheckingFallback?
    ensures Follows(MainAct(y), a, r)
  {
    if y.slot.fallback.Some? {
      DeliverFollows(y, y.slot.fallback.value, a);
    }
  }

  lemma ClearFollows(y: System, a: seq<Response>, r: seq<Round>)
    requires |y.sent| == |a| && |r| == |a| + 1 && Follows(y, a, r) && y.main.Clearing?
    ensures Follows(MainAct(y), a, r)
  {
    assert y.delivered[..|y.delivered|] == y.delivered;
  }

  lemma MainFollows(y: System, a: seq<Response>, r: seq<Round>)
    requires |y.sent| == |a| && |r| == |a| + 1 && Follows(y, a, r)
    ensures Follows(MainAct(y), a, r)
  {
    match y.main
    case Outside => PollStartFollows(y, a, r);
    case Draining(_, _) => if CanReceive(y.slot) { ReceiveFollows(y, a, r); } else { DrainedFollows(y, a, r); }
    case CheckingFallback => FallbackFollows(y, a, r);
    case Clearing(_) => ClearFollows(y, a, r);
  }

  /** The thread decides: its round is written and it holds the answer. */
  lemma DecidingFollows(decide: Engine, y: System, a: seq<Response>, r: seq<Round>)
    requires Plan(decide, y.sent, a, r) && Follows(y, a, r) && y.slot.threads != [] && y.slot.threads[0].Deciding?
    ensures Follows(y.(slot := ThreadAct(decide, y.slot, 0)), a, r)
  {
    var t, k := y.slot.threads[0], |y.delivered|;
    assert y.slot.threads == [t] && y.slot.decisionCount == k + 1;
    PlanAt(decide, y.sent, a, r, k);
    var z := y.(slot := ThreadAct(decide, y.slot, 0));
    assert z.slot.threads == [Sending(a[k])];
    assert TokenIsNextAnswer(z, a, r) && ChannelConsistent(z) && MainConsistent(z);
    assert StatusConsistent(z, r) && CountsConsistent(z);
  }

  /** The thread sends, or finds the channel closed and stores. */
  lemma SendingFollows(decide: Engine, y: System, a: seq<Response>, r: seq<Round>)
    requires |y.sent| == |a| && |r| == |a| + 1
    requires Follows(y, a, r) && y.slot.threads != [] && !y.slot.threads[0].Deciding?
    ensures Follows(y.(slot := ThreadAct(decide, y.slot, 0)), a, r)
  {
    var t := y.slot.threads[0];
    assert y.slot.threads == [t] && y.slot.responses == [] && y.slot.fallback == None && y.dropped == [];
    assert Without(y.slot.threads, 0) == [];
    var z := y.(slot := ThreadAct(decide, y.slot, 0));
    assert InHand(z) == InHand(y) == 0 && Outstanding(z) == 1;
    assert TokenIsNextAnswer(z, a, r) && ChannelConsistent(z) && MainConsistent(z);
    assert StatusConsistent(z, r) && CountsConsistent(z);
  }

  lemma ThreadFollows(decide: Engine, y: System, a: seq<Response>, r: seq<Round>)
    requires Plan(decide, y.sent, a, r) && Follows(y, a, r) && y.slot.threads != []
    ensures Follows(y.(slot := ThreadAct(decide, y.slot, 0)), a, r)
  {
    if y.slot.threads[0].Deciding? { DecidingFollows(decide, y, a, r); } else { SendingFollows(decide, y, a, r); }
  }

  lemma DropFollows(y: System, a: seq<Response>, r: seq<Round>)
    requires |y.sent| == |a| && |r| == |a| + 1 && Follows(y, a, r) && y.main.Outside? && y.slot.mailSender
    ensures Follows(Drop(y), a, r)
  {
  }

  lemma SendKeepsInv(decide: Engine, y: System, q: Request)
    requires Inv(decide, y) && y.slot.mailSender
    ensures Inv(decide, Send(y, q))
  {
    var sent := y.sent + [q];
    assert sent[..|y.sent|] == y.sent;
    var answers, rounds := Sequential(decide, sent).responses, Rounds(decide, sent);
    SendFollows(y, q, Sequential(decide, y.sent).responses, Rounds(decide, y.sent), answers[|y.sent|], rounds[|sent|]);
  }

  /** A step that sends no request keeps to the same plan. */
  lemma QuietStepFollows(decide: Engine, y: System, step: Step, a: seq<Response>, r: seq<Round>)
    requires Plan(decide, y.sent, a, r) && Follows(y, a, r) && !step.SendRequest?
    ensures Act(decide, y, step).sent == y.sent && Follows(Act(decide, y, step), a, r)
  {
    match step
    case MainStep => MainFollows(y, a, r);
    case ThreadStep(i) => if i < |y.slot.threads| { ThreadFollows(decide, y, a, r); }
    case DropMailSender => if y.main.Outside? && y.slot.mailSender { DropFollows(y, a, r); }
    case StopAgent(_) =>
    case ResetErrorStatus =>
  }

  lemma StepKeepsInv(decide: Engine, y: System, step: Step)
    requires Inv(decide, y)
    ensures Inv(decide, Act(decide, y, step))
  {
    if step.SendRequest? {
      if y.slot.mailSender { SendKeepsInv(decide, y, step.request); }
    } else {
      SequentialIsPlan(decide, y.sent);
      QuietStepFollows(decide, y, step, Sequential(decide, y.sent).responses, Rounds(decide, y.sent));
    }
  }

  lemma {:induction false} RunKeepsInv(decide: Engine, y: System, steps: seq<Step>)
    requires Inv(decide, y)
    ensures Inv(decide, Run(decide, y, steps))
    decreases |steps|
  {
    if steps != [] {
      StepKeepsInv(decide, y, steps[0]);
      RunKeepsInv(decide, Act(decide, y, steps[0]), steps[1..]);
    }
  }

  lemma ReachableInv(decide: Engine, y: System)
    requires Reachable(decide, y)
    ensures Inv(decide, y)
  {
    var steps :| y == Run(decide, INITIAL, steps);
    RunKeepsInv(decide, INITIAL, steps);
  }
}
