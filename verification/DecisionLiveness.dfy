/**
 Every fair schedule answers everything: after the last request it is enough that the main
 thread and the background thread each act now and then, in any order.
 Source: core/src/decision_agent_slot.rs, core/src/agent_pool.rs.
 */
module DecisionLiveness {
  import opened DecisionProtocol
  import opened DecisionRefinement

  /** No response was lost and the slot is not stopped. */
  ghost predicate CanProgress(decide: Engine, y: System) {
    Inv(decide, y) && y.dropped == [] && !y.slot.status.Stopped?
  }

  /** The steps of a schedule after the last request: nobody stops the agent or closes its channel. */
  predicate Ordinary(step: Step) {
    step.MainStep? || step.ThreadStep? || step.ResetErrorStatus?
  }

  // ----- Work left -----

  /** Main-thread steps until an idle slot starts its next decision. */
  function IdleRank(main: Main): nat {
    match main
    case Outside => 1
    case Clearing(_) => 2
    case CheckingFallback => 2
    case Draining(_, _) => 3
  }

  /** Main-thread steps until a response is collected, from the channel or from the fallback. */
  function CollectRank(main: Main, queued: bool): nat {
    match main
    case Outside => if queued then 2 else 3
    case Draining(_, _) => if queued then 1 else 2
    case CheckingFallback => if queued then 3 else 1
    case Clearing(_) => 3
  }

  /** Steps that matter until all requests are answered: at most nine for each, and three before. */
  function Work(y: System): nat {
    var s := y.slot;
    if s.threads != [] then 9 * |s.requests| + 6 + ThreadRank(s.threads[0])
    else if s.responses != [] || s.fallback.Some? then 9 * |s.requests| + 3 + CollectRank(y.main, s.responses != [])
    else if s.requests != [] then 9 * |s.requests| + IdleRank(y.main)
    else 0
  }

  lemma WorkBound(decide: Engine, y: System)
    requires CanProgress(decide, y)
    ensures Work(y) <= 9 * (|y.sent| - |y.delivered|) + 3
  {
  }

  lemma NoWorkMeansAnswered(decide: Engine, y: System)
    requires CanProgress(decide, y) && Work(y) == 0
    ensures y.delivered == Sequential(decide, y.sent).responses
  {
  }

  // ----- Steps -----

  /** The step that makes progress: the thread's while there is one, the main thread's otherwise. */
  function Useful(y: System): Step {
    if y.slot.threads != [] then ThreadStep(0) else MainStep
  }

  lemma ThreadWorks(decide: Engine, y: System)
    requires CanProgress(decide, y) && y.slot.threads != []
    ensures Work(Act(decide, y, ThreadStep(0))) < Work(y)
  {
  }

  lemma MainWorks(decide: Engine, y: System)
    requires CanProgress(decide, y) && y.slot.threads == [] && Work(y) > 0
    ensures Work(Act(decide, y, MainStep)) < Work(y)
  {
  }

  /** Polling changes nothing of a decision under way. */
  lemma MainWaits(decide: Engine, y: System)
    requires CanProgress(decide, y) && y.slot.threads != []
    ensures var z := Act(decide, y, MainStep); Work(z) == Work(y) && Useful(z) == Useful(y)
  {
  }

  lemma MainRests(decide: Engine, y: System)
    requires CanProgress(decide, y) && Work(y) == 0
    ensures Work(Act(decide, y, MainStep)) == 0
  {
  }

  lemma OtherSteps(decide: Engine, y: System, step: Step)
    requires CanProgress(decide, y) && Ordinary(step) && !step.MainStep? && step != ThreadStep(0)
    ensures Act(decide, y, step) == y
  {
  }

  /** Each ordinary step either is the useful one, or leaves the work and what is useful as they are. */
  lemma StepWorks(decide: Engine, y: System, step: Step)
    requires CanProgress(decide, y) && Ordinary(step)
    ensures var z := Act(decide, y, step);
      && CanProgress(decide, z) && z.sent == y.sent && Work(z) <= Work(y)
      && (step == Useful(y) && Work(y) > 0 ==> Work(z) < Work(y))
      && (step != Useful(y) ==> Useful(z) == Useful(y))
  {
    StepKeepsInv(decide, y, step);
    if step.MainStep? {
      if y.slot.threads != [] { MainWaits(decide, y); }
      else if Work(y) > 0 { MainWorks(decide, y); }
      else { MainRests(decide, y); }
    } else if step == ThreadStep(0) {
      if y.slot.threads != [] { ThreadWorks(decide, y); }
    } else {
      OtherSteps(decide, y, step);
    }
  }

  lemma {:induction false} ScheduleWorks(decide: Engine, y: System, steps: seq<Step>)
    requires CanProgress(decide, y) && forall i | 0 <= i < |steps| :: Ordinary(steps[i])
    ensures var z := Run(decide, y, steps);
      CanProgress(decide, z) && z.sent == y.sent && Work(z) <= Work(y)
    decreases |steps|
  {
    if steps != [] {
      StepWorks(decide, y, steps[0]);
      ScheduleWorks(decide, Act(decide, y, steps[0]), steps[1..]);
    }
  }

  // ----- Rounds -----

  /** A stretch of a schedule in which both sides act. */
  predicate FairRound(steps: seq<Step>) {
    && (forall i | 0 <= i < |steps| :: Ordinary(steps[i]))
    && MainStep in steps && ThreadStep(0) in steps
  }

  lemma {:induction false} UsefulStepComes(decide: Engine, y: System, steps: seq<Step>)
    requires CanProgress(decide, y) && (forall i | 0 <= i < |steps| :: Ordinary(steps[i]))
    requires Useful(y) in steps && Work(y) > 0
    ensures Work(Run(decide, y, steps)) < Work(y)
    decreases |steps|
  {
    var z := Act(decide, y, steps[0]);
    StepWorks(decide, y, steps[0]);
    ScheduleWorks(decide, z, steps[1..]);
    if steps[0] != Useful(y) && Work(z) > 0 {
      assert steps == [steps[0]] + steps[1..];
      UsefulStepComes(decide, z, steps[1..]);
    }
  }

  function Flatten(rounds: seq<seq<Step>>): seq<Step> {
    if rounds == [] then [] else rounds[0] + Flatten(rounds[1..])
  }

  lemma {:induction false} RoundsWork(decide: Engine, y: System, rounds: seq<seq<Step>>)
    requires CanProgress(decide, y) && forall i | 0 <= i < |rounds| :: FairRound(rounds[i])
    ensures var z := Run(decide, y, Flatten(rounds));
      CanProgress(decide, z) && z.sent == y.sent && (Work(z) == 0 || Work(z) + |rounds| <= Work(y))
    decreases |rounds|
  {
    if rounds != [] {
      var z := Run(decide, y, rounds[0]);
      ScheduleWorks(decide, y, rounds[0]);
      if Work(y) > 0 {
        UsefulStepComes(decide, y, rounds[0]);
      }
      RoundsWork(decide, z, rounds[1..]);
      RunAppend(decide, y, rounds[0], Flatten(rounds[1..]));
    }
  }

  /**
   From any reachable state with nothing lost, every schedule without a new request, a stop or a
   close, in which both sides act in each of enough rounds, delivers the sequential loop's answer
   to every request.
   */
  lemma FairSchedulesDeliver(decide: Engine, y: System, rounds: seq<seq<Step>>)
    requires Reachable(decide, y) && !y.slot.status.Stopped? && y.dropped == []
    requires forall i | 0 <= i < |rounds| :: FairRound(rounds[i])
    requires |rounds| >= 9 * (|y.sent| - |y.delivered|) + 3
    ensures var z := Run(decide, y, Flatten(rounds));
      z.sent == y.sent && z.delivered == Sequential(decide, y.sent).responses
  {
    ReachableInv(decide, y);
    WorkBound(decide, y);
    RoundsWork(decide, y, rounds);
    NoWorkMeansAnswered(decide, Run(decide, y, Flatten(rounds)));
  }
}
