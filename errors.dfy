/** The handler's error taxonomy: every failure has a fixed HTTP status and a
    fixed client-facing message. */
module Errors {

  datatype ErrorKind =
    | MethodNotAllowed
    | ServicePaused
    | MissingField
    | GlobalQuotaExceeded
    | UserQuotaExceeded
    | InvalidMode
    | UpstreamBusy
    | UpstreamServiceError
    | ParseFailure
    | InternalError

  function Status(k: ErrorKind): (code: int)
    ensures code in {400, 405, 429, 500, 503}
    ensures code == 429 <==> k in {GlobalQuotaExceeded, UserQuotaExceeded, UpstreamBusy}
    ensures code == 400 <==> k in {MissingField, InvalidMode}
    ensures code == 500 <==> k in {UpstreamServiceError, ParseFailure, InternalError}
    ensures code == 405 <==> k == MethodNotAllowed
    ensures code == 503 <==> k == ServicePaused
  {
    match k
    case MethodNotAllowed => 405
    case ServicePaused => 503
    case MissingField => 400
    case GlobalQuotaExceeded => 429
    case UserQuotaExceeded => 429
    case InvalidMode => 400
    case UpstreamBusy => 429
    case UpstreamServiceError => 500
    case ParseFailure => 500
    case InternalError => 500
  }

  function Message(k: ErrorKind): string
  {
    match k
    case MethodNotAllowed => "Method not allowed"
    case ServicePaused => "AI features are temporarily paused. Try again later! \U{1F527}"
    case MissingField => "Missing prompt or mode"
    case GlobalQuotaExceeded =>
      "LearnBot is resting \U{2014} too many students today! Try again tomorrow. \U{1F4DA}"
    case UserQuotaExceeded => "Slow down! Take a break and try again in a bit. \U{23F3}"
    case InvalidMode => "Invalid mode"
    case UpstreamBusy => "AI is busy, try again in a moment."
    case UpstreamServiceError => "AI service error"
    case ParseFailure => "Failed to parse AI response"
    case InternalError => "Internal server error"
  }

  /** Every error kind has a message of its own, so a client can tell the
      failures apart by message as well as by status. */
  lemma MessagesDistinct(k1: ErrorKind, k2: ErrorKind)
    requires Message(k1) == Message(k2)
    ensures k1 == k2
  {
    MessageLength(k1);
    MessageLength(k2);
  }

  /** The messages already differ in length (counted in code points). */
  lemma MessageLength(k: ErrorKind)
    ensures |Message(k)| == match k
      case MethodNotAllowed => 18
      case ServicePaused => 54
      case MissingField => 22
      case GlobalQuotaExceeded => 68
      case UserQuotaExceeded => 49
      case InvalidMode => 12
      case UpstreamBusy => 34
      case UpstreamServiceError => 16
      case ParseFailure => 27
      case InternalError => 21
  {
    match k
    case MethodNotAllowed =>
    case ServicePaused =>
    case MissingField =>
    case GlobalQuotaExceeded =>
    case UserQuotaExceeded =>
    case InvalidMode =>
    case UpstreamBusy =>
    case UpstreamServiceError =>
    case ParseFailure =>
    case InternalError =>
  }
}
