/** The nine states a node can end in, and the names they are recorded under. */
module TerminalStates {
  datatype TerminalState =
    | Succeeded | Failed | TimedOut | Skipped | UpstreamSkipped
    | UpstreamFailed | Cancelled | Abandoned | SatisfiedFromPrior

  function StateName(s: TerminalState): string {
    match s
    case Succeeded => "succeeded"
    case Failed => "failed"
    case TimedOut => "timed-out"
    case Skipped => "skipped"
    case UpstreamSkipped => "upstream-skipped"
    case UpstreamFailed => "upstream-failed"
    case Cancelled => "cancelled"
    case Abandoned => "abandoned"
    case SatisfiedFromPrior => "satisfied-from-prior"
  }
}
