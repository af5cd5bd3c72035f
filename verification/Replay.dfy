/** The recovery decision table and the execution-knowledge transitions. */
module Replay {
  import opened Wire

  datatype ExecutionKnowledge = NotDispatched | InFlight | Completed | OutcomeUnknown

  datatype ReplayContract = Convergent | ProbeRequired | NeverReplay

  datatype ProbeResolution = AlreadyCompleted | SafeToReplay

  datatype RequestDisposition =
    | FirstDispatch
    | AwaitTerminal
    | KeepCompleted
    | Replay
    | HoldForProbe
    | CompleteFromProbe
    | RejectAmbiguousOutcome
    | RejectReplayExhausted
    | RejectUnexpectedProbeResolution

  function AfterWorkerLoss(k: ExecutionKnowledge): ExecutionKnowledge {
    if k.InFlight? then OutcomeUnknown else k
  }

  function AfterDispatch(k: ExecutionKnowledge, d: RequestDisposition): Option<ExecutionKnowledge> {
    match (k, d)
    case (NotDispatched, FirstDispatch) => Some(InFlight)
    case (OutcomeUnknown, Replay) => Some(InFlight)
    case _ => None
  }

  function AfterTerminalOutcome(k: ExecutionKnowledge): Option<ExecutionKnowledge> {
    if k.InFlight? || k.OutcomeUnknown? then Some(Completed) else None
  }

  function AfterCompletedProbe(k: ExecutionKnowledge): Option<ExecutionKnowledge> {
    if k.OutcomeUnknown? then Some(Completed) else None
  }

  /** The next attempt number, in eight-bit arithmetic, or nothing past the ceiling. */
  function NextAttempt(used: u8, max: u8): Option<u8> {
    if used < 255 && used + 1 <= max then Some(used + 1) else None
  }

  function ReplayOrExhausted(used: u8, max: u8): RequestDisposition {
    if NextAttempt(used, max).Some? then Replay else RejectReplayExhausted
  }

  function Disposition(k: ExecutionKnowledge, c: ReplayContract, probe: Option<ProbeResolution>, used: u8,
      max: u8): RequestDisposition {
    if probe.Some? && !(k.OutcomeUnknown? && c.ProbeRequired?) then
      RejectUnexpectedProbeResolution
    else
      match k
      case NotDispatched => FirstDispatch
      case InFlight => AwaitTerminal
      case Completed => KeepCompleted
      case OutcomeUnknown =>
        match c
        case Convergent => ReplayOrExhausted(used, max)
        case ProbeRequired => (
          match probe
          case None => HoldForProbe
          case Some(AlreadyCompleted) => CompleteFromProbe
          case Some(SafeToReplay) => ReplayOrExhausted(used, max))
        case NeverReplay => RejectAmbiguousOutcome
  }
}
