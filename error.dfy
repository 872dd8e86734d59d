/** The application's error type (src/error.rs): a kind and a message, how it is
    displayed, and how it becomes an HTTP response. */
module AppErrors {
  import opened Values

  datatype ErrorKind = BadRequest | Unauthorized | Forbidden | NotFound | InternalServerError

  datatype AppError = AppError(kind: ErrorKind, message: string)

  /** `AppResult<T>` */
  datatype Result<+T> = Ok(value: T) | Err(error: AppError)

  /** An HTTP response made of a status code and a plain-text body. */
  datatype Response = Response(status: nat, body: string)

  /** `Into<StatusCode> for AppErrorKind`. Every kind is an error status; only the
      internal error is a server-side (5xx) status, every other kind is a client-side
      (4xx) one. */
  function StatusCode(kind: ErrorKind): (code: nat)
    ensures 400 <= code < 600
    ensures code >= 500 <==> kind == InternalServerError
  {
    match kind
    case BadRequest => 400
    case Unauthorized => 401
    case Forbidden => 403
    case NotFound => 404
    case InternalServerError => 500
  }

  /** The kind that a status code stands for, if any: the inverse of StatusCode. */
  function KindOfStatus(code: nat): Option<ErrorKind>
  {
    if code == 400 then Some(BadRequest)
    else if code == 401 then Some(Unauthorized)
    else if code == 403 then Some(Forbidden)
    else if code == 404 then Some(NotFound)
    else if code == 500 then Some(InternalServerError)
    else None
  }

  /** A client can recover the kind of an error from the status code alone. */
  lemma StatusCodeRoundTrip(kind: ErrorKind)
    ensures KindOfStatus(StatusCode(kind)) == Some(kind)
  {
  }

  /** Distinct kinds give distinct status codes. */
  lemma StatusCodeInjective(k1: ErrorKind, k2: ErrorKind)
    ensures StatusCode(k1) == StatusCode(k2) ==> k1 == k2
  {
    StatusCodeRoundTrip(k1);
    StatusCodeRoundTrip(k2);
  }

  /** The text `Display` writes before the message. */
  function Prefix(kind: ErrorKind): (p: string)
    ensures |p| > 2 && p[|p| - 2..] == ": "
  {
    match kind
    case BadRequest => "Bad Request: "
    case Unauthorized => "Unauthorized: "
    case Forbidden => "Forbidden: "
    case NotFound => "Not Found: "
    case InternalServerError => "Internal Server Error: "
  }

  /** `Display for AppError`: the kind's prefix followed by the message, verbatim. */
  function Display(e: AppError): (s: string)
    ensures |s| > |e.message| + 2
    ensures s[|s| - |e.message|..] == e.message
    ensures s[..|s| - |e.message|] == Prefix(e.kind)
  {
    Prefix(e.kind) + e.message
  }

  /** The displayed text determines the error: its first character names the kind and
      the rest after the kind's prefix is the message. */
  lemma DisplayInjective(e1: AppError, e2: AppError)
    ensures Display(e1) == Display(e2) ==> e1 == e2
  {
    if Display(e1) == Display(e2) {
      var s := Display(e1);
      assert s[0] == Prefix(e1.kind)[0] && s[0] == Prefix(e2.kind)[0];
      assert e1.kind == e2.kind;
      var p := Prefix(e1.kind);
      assert e1.message == s[|p|..] == e2.message;
    }
  }

  /** `IntoResponse for AppError`: the kind's status and the bare message as body. */
  function IntoResponse(e: AppError): (r: Response)
    ensures KindOfStatus(r.status) == Some(e.kind)
    ensures Display(e) == Prefix(e.kind) + r.body
  {
    StatusCodeRoundTrip(e.kind);
    Response(StatusCode(e.kind), e.message)
  }

  // The constructors `AppError::bad_request` ... `AppError::internal`.

  function BadRequestError(message: string): (e: AppError)
    ensures e.kind == BadRequest && e.message == message
  {
    AppError(BadRequest, message)
  }

  function UnauthorizedError(message: string): (e: AppError)
    ensures e.kind == Unauthorized && e.message == message
  {
    AppError(Unauthorized, message)
  }

  function ForbiddenError(message: string): (e: AppError)
    ensures e.kind == Forbidden && e.message == message
  {
    AppError(Forbidden, message)
  }

  function NotFoundError(message: string): (e: AppError)
    ensures e.kind == NotFound && e.message == message
  {
    AppError(NotFound, message)
  }

  function InternalError(message: string): (e: AppError)
    ensures e.kind == InternalServerError && e.message == message
  {
    AppError(InternalServerError, message)
  }

  /** What each constructor's error looks like on the wire: its status code, with the
      message given to the constructor as the body. */
  lemma ConstructorResponses(message: string)
    ensures IntoResponse(BadRequestError(message)) == Response(400, message)
    ensures IntoResponse(UnauthorizedError(message)) == Response(401, message)
    ensures IntoResponse(ForbiddenError(message)) == Response(403, message)
    ensures IntoResponse(NotFoundError(message)) == Response(404, message)
    ensures IntoResponse(InternalError(message)) == Response(500, message)
  {
  }
}
