/** The operational status of an agent slot and the matrix of transitions it allows. */
module SlotStatus {

  /** Why an agent is blocked; two reasons are the same if type, urgency and context agree. */
  datatype BlockedState = BlockedState(reasonType: string, description: string, urgency: nat, context: string)

  datatype Status =
    | Idle
    | Starting
    | Responding(startedAt: int)
    | ToolExecuting(tool: string)
    | Finishing
    | Stopping
    | Stopped(reason: string)
    | Error(message: string)
    | Blocked(why: string)
    | BlockedForDecision(blocked: BlockedState)
    | Paused(pause: string)
    | WaitingForInput(since: int)
    | Resting(restingSince: int, blocked: BlockedState, onResume: bool)

  predicate Same(a: Status, b: Status) {
    match (a, b)
    case (BlockedForDecision(x), BlockedForDecision(y)) =>
      x.reasonType == y.reasonType && x.urgency == y.urgency && x.context == y.context
    case (Resting(s, x, p), Resting(t, y, q)) => s == t && x.reasonType == y.reasonType && p == q
    case _ => a == b
  }

  predicate CanTransition(a: Status, b: Status) {
    || (match a
        case Idle => b.Starting? || b.Blocked? || b.BlockedForDecision? || b.Stopped? || b.Paused?
        case Starting =>
          b.Idle? || b.Responding? || b.Stopping? || b.Blocked? || b.BlockedForDecision? || b.Error? || b.Paused? || b.Stopped?
        case Responding(_) =>
          b.Idle? || b.ToolExecuting? || b.Finishing? || b.Stopping? || b.Blocked? || b.BlockedForDecision?
          || b.Error? || b.Paused? || b.WaitingForInput? || b.Stopped?
        case ToolExecuting(_) =>
          b.Idle? || b.Responding? || b.Finishing? || b.Stopping? || b.Blocked? || b.BlockedForDecision?
          || b.Error? || b.Paused? || b.WaitingForInput? || b.Stopped?
        case Finishing =>
          b.Idle? || b.Stopping? || b.Blocked? || b.BlockedForDecision? || b.Error? || b.Paused? || b.Stopped?
        case Stopping => b.Stopped? || b.Error?
        case Stopped(_) => b.Starting?
        case Error(_) => b.Idle? || b.Stopped?
        case Blocked(_) => b.Idle? || b.Responding? || b.Stopped? || b.Paused? || b.BlockedForDecision?
        case BlockedForDecision(_) =>
          b.Idle? || b.Responding? || b.Stopped? || b.Paused? || b.Blocked? || b.Resting?
        case Paused(_) => b.Idle? || b.Stopped?
        case WaitingForInput(_) =>
          b.Responding? || b.Idle? || b.Stopping? || b.Blocked? || b.BlockedForDecision? || b.Stopped?
        case Resting(_, _, _) => b.Idle? || b.Error? || b.Stopped? || b.Resting?)
    || Same(a, b)
  }

  predicate IsTerminal(s: Status) { s.Stopped? }

  predicate IsBlocked(s: Status) { s.Blocked? || s.BlockedForDecision? || s.Resting? }
}
