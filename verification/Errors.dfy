/** The errors that circulate inside the gateway and their translation to gRPC statuses
    (MyGateway/service/grpc_error.go). */
module GatewayErrors {
  import opened Options

  /** The gRPC status codes. */
  datatype Code =
    | OK | Canceled | Unknown | InvalidArgument | DeadlineExceeded | NotFound | AlreadyExists
    | PermissionDenied | ResourceExhausted | FailedPrecondition | Aborted | OutOfRange
    | Unimplemented | Internal | Unavailable | DataLoss | Unauthenticated

  /** A Go error value: a sentinel, a gRPC status, an opaque error, or another error wrapped with
      text before and after it. */
  datatype Error =
    | EOF
    | ConnPoolClosed
    | NoAvailableConnInstance
    | UnknownCluster
    | StickyKeyRequired
    | Opaque(text: string)
    | Status(code: Code, message: string)
    | Wrapped(before: string, inner: Error, after: string)

  datatype Outcome<+T> = Ok(value: T) | Err(err: Error)

  const MSG_ALL_INSTANCES_BUSY := "all instances are busy"
  const MSG_BACKEND_UNAVAILABLE := "backend service unavailable"
  const MSG_MISSING_OR_INVALID_TOKEN := "missing or invalid token"

  /** The name of a code, as it appears in the text of a status. */
  function CodeName(code: Code): string {
    match code
    case OK => "OK"
    case Canceled => "Canceled"
    case Unknown => "Unknown"
    case InvalidArgument => "InvalidArgument"
    case DeadlineExceeded => "DeadlineExceeded"
    case NotFound => "NotFound"
    case AlreadyExists => "AlreadyExists"
    case PermissionDenied => "PermissionDenied"
    case ResourceExhausted => "ResourceExhausted"
    case FailedPrecondition => "FailedPrecondition"
    case Aborted => "Aborted"
    case OutOfRange => "OutOfRange"
    case Unimplemented => "Unimplemented"
    case Internal => "Internal"
    case Unavailable => "Unavailable"
    case DataLoss => "DataLoss"
    case Unauthenticated => "Unauthenticated"
  }

  /** The innermost error of a wrapping chain. */
  function Root(err: Error): Error {
    match err
    case Wrapped(_, inner, _) => Root(inner)
    case _ => err
  }

  /** `Error()`: the text of a status holds its code besides its message. */
  function Text(err: Error): string {
    match err
    case EOF => "EOF"
    case ConnPoolClosed => "conn pool is closed"
    case NoAvailableConnInstance => "no available backend instance"
    case UnknownCluster => "unknown cluster"
    case StickyKeyRequired => "sticky key required for this route"
    case Opaque(text) => text
    case Status(code, message) => "rpc error: code = " + CodeName(code) + " desc = " + message
    case Wrapped(before, inner, after) => before + Text(inner) + after
  }

  /** `status.Code`: the code of the status in the chain, Unknown when there is none. */
  function CodeOf(err: Error): Code {
    match Root(err)
    case Status(code, _) => code
    case _ => Unknown
  }

  /** `status.Error`: building a status with code OK yields no error. */
  function StatusError(code: Code, message: string): Option<Error> {
    if code == OK then None else Some(Status(code, message))
  }

  /** The message of the status found in a chain: its own if it is not wrapped, and otherwise the text of
      the whole chain. */
  function MessageOf(err: Error): string {
    if err.Status? then err.message else Text(err)
  }

  /** `gatewayErrorToGRPC`. */
  function GatewayErrorToGRPC(err: Option<Error>): Option<Error> {
    if err.None? then
      None
    else if CodeOf(err.value) == Unavailable then
      StatusError(Unavailable, MSG_BACKEND_UNAVAILABLE)
    else if Root(err.value).Status? && CodeOf(err.value) != Unknown then
      StatusError(CodeOf(err.value), MessageOf(err.value))
    else
      match Root(err.value)
      case NoAvailableConnInstance => StatusError(ResourceExhausted, MSG_ALL_INSTANCES_BUSY)
      case StickyKeyRequired => StatusError(Unauthenticated, MSG_MISSING_OR_INVALID_TOKEN)
      case _ => StatusError(Unavailable, MSG_BACKEND_UNAVAILABLE)
  }

  /** What a client can observe: nil is answered to nil (and to the degenerate status OK) only, every
      other error becomes a bare status that carries a definite code, its own if it has one; why a
      backend is unavailable is not passed on; and translating twice is translating once. */
  lemma TranslationIsDefinite(err: Option<Error>)
    ensures GatewayErrorToGRPC(err).None? <==> err.None? || CodeOf(err.value) == OK
    ensures GatewayErrorToGRPC(err).Some? ==>
              && GatewayErrorToGRPC(err).value.Status?
              && GatewayErrorToGRPC(err).value.code !in {OK, Unknown}
              && (CodeOf(err.value) != Unknown ==> GatewayErrorToGRPC(err).value.code == CodeOf(err.value))
              && (GatewayErrorToGRPC(err).value.code == Unavailable ==>
                    GatewayErrorToGRPC(err).value.message == MSG_BACKEND_UNAVAILABLE)
    ensures GatewayErrorToGRPC(GatewayErrorToGRPC(err)) == GatewayErrorToGRPC(err)
  {
    if err.Some? && CodeOf(err.value) != OK {
      assert GatewayErrorToGRPC(err).Some?;
    }
  }

  lemma RootIsInnermost(err: Error)
    ensures !Root(err).Wrapped? && Root(err) == if err.Wrapped? then Root(err.inner) else err
  {
  }

  /** Which errors a client sees as what: a definite status keeps code and message, but for UNAVAILABLE,
      which has one message; the exhausted pool and the missing sticky key have statuses of their own; and
      every other error, a closed pool, an unknown cluster, EOF, an opaque error and a status of code
      Unknown among them, is an unavailable backend. */
  lemma TranslationByCause(err: Error)
    ensures GatewayErrorToGRPC(Some(err)) ==
            match Root(err)
            case NoAvailableConnInstance => Some(Status(ResourceExhausted, "all instances are busy"))
            case StickyKeyRequired => Some(Status(Unauthenticated, "missing or invalid token"))
            case Status(OK, _) => None
            case Status(Unknown, _) => Some(Status(Unavailable, "backend service unavailable"))
            case Status(Unavailable, _) => Some(Status(Unavailable, "backend service unavailable"))
            case Status(code, message) => Some(Status(code, if err.Status? then message else Text(err)))
            case _ => Some(Status(Unavailable, "backend service unavailable"))
  {
  }

  /** The text of a chain is no shorter than that of what it wraps. */
  lemma {:induction false} TextHoldsRoot(err: Error)
    ensures |Text(err)| >= |Text(Root(err))|
    decreases err
  {
    if err.Wrapped? {
      TextHoldsRoot(err.inner);
    }
  }

  /** The busy answer is given exactly for an exhausted pool, however often wrapped, and for the very
      status it consists of; a wrapped status of that code has a longer text. */
  lemma BusyExactlyWhenExhausted(err: Error)
    ensures (GatewayErrorToGRPC(Some(err)) == Some(Status(ResourceExhausted, MSG_ALL_INSTANCES_BUSY)))
         == (Root(err) == NoAvailableConnInstance || err == Status(ResourceExhausted, MSG_ALL_INSTANCES_BUSY))
  {
    if err.Wrapped? && CodeOf(err) == ResourceExhausted {
      TextHoldsRoot(err);
      assert |Text(err)| > |MSG_ALL_INSTANCES_BUSY|;
    }
  }
}
