/** The error taxonomy of the server crates, the HTTP response each error becomes,
    and the conversions from database, pool, blocking and framework errors. */
module Errors {

  datatype Option<T> = None | Some(value: T)

  /** The variants of `Error`, in declaration order. */
  datatype Error =
    | BadRequest(message: string)
    | CannotDecodeJwtToken(message: string)
    | CannotEncodeJwtToken(message: string)
    | InternalServerError(message: string)
    | Unauthorized
    | Forbidden
    | NotFound(message: string)
    | PoolError(message: string)
    | ValidationError(messages: seq<string>)
    | UnprocessableEntity(message: string)
    | BlockingError(message: string)

  /** Success value or an `Error`; usable with `:-`. */
  datatype Result<T> = Ok(value: T) | Err(error: Error) {
    predicate IsFailure() {
      Err?
    }

    function PropagateFailure<U>(): Result<U>
      requires Err?
    {
      Err(error)
    }

    function Extract(): T
      requires Ok?
    {
      value
    }
  }

  /** The user-facing error body `{ "errors": [...] }`. */
  datatype ErrorResponse = ErrorResponse(errors: seq<string>)

  /** A response body: validation errors are sent as a bare JSON list, every other error as an ErrorResponse. */
  datatype Body = MessageList(list: seq<string>) | Wrapped(response: ErrorResponse)

  datatype HttpResponse = HttpResponse(status: int, body: Body)

  /** `From<&str>` / `From<&String>` for ErrorResponse: a one-element list. */
  function ResponseOfMessage(message: string): (r: ErrorResponse)
    ensures |r.errors| == 1 && r.errors[0] == message
  {
    ErrorResponse([message])
  }

  /** `From<Vec<String>>` for ErrorResponse: the list as it is. */
  function ResponseOfList(messages: seq<string>): (r: ErrorResponse)
    ensures r.errors == messages
  {
    ErrorResponse(messages)
  }

  /** The variants whose own content reaches the client. */
  predicate IsClientError(e: Error) {
    e.ValidationError? || e.BadRequest? || e.NotFound? || e.UnprocessableEntity? || e.Forbidden?
  }

  const GenericServerError := "Internal Server Error"

  /** `ResponseError::error_response`. */
  function ErrorResponseOf(e: Error): (r: HttpResponse)
    ensures IsClientError(e) <==> r.status != 500
    ensures r.status == 422 <==> e.ValidationError? || e.UnprocessableEntity?
    ensures r.status == 400 <==> e.BadRequest?
    ensures r.status == 404 <==> e.NotFound?
    ensures r.status == 403 <==> e.Forbidden?
    ensures e.ValidationError? ==> r.body == MessageList(e.messages)
    ensures e.BadRequest? || e.NotFound? || e.UnprocessableEntity? ==> r.body == Wrapped(ErrorResponse([e.message]))
    ensures e.Forbidden? ==> r.body == Wrapped(ErrorResponse(["Forbidden"]))
    ensures !IsClientError(e) ==> r.body == Wrapped(ErrorResponse([GenericServerError]))
  {
    match e
    case ValidationError(list) => HttpResponse(422, MessageList(list))
    case BadRequest(message) => HttpResponse(400, Wrapped(ResponseOfMessage(message)))
    case NotFound(message) => HttpResponse(404, Wrapped(ResponseOfMessage(message)))
    case UnprocessableEntity(message) => HttpResponse(422, Wrapped(ResponseOfMessage(message)))
    case Forbidden => HttpResponse(403, Wrapped(ResponseOfMessage("Forbidden")))
    case _ => HttpResponse(500, Wrapped(ResponseOfMessage(GenericServerError)))
  }

  /** Nothing about a server-side error reaches the client: any two of them give the same response. */
  lemma ServerErrorsAreIndistinguishable(e1: Error, e2: Error)
    requires !IsClientError(e1) && !IsClientError(e2)
    ensures ErrorResponseOf(e1) == ErrorResponseOf(e2)
    ensures ErrorResponseOf(e1) == HttpResponse(500, Wrapped(ErrorResponse(["Internal Server Error"])))
  {
  }

  /** The kinds of database error that diesel reports. */
  datatype DbErrorKind = UniqueViolation | ForeignKeyViolation | OtherKind

  datatype DbError =
    | DatabaseError(kind: DbErrorKind, message: string, details: Option<string>)
    | DbNotFound
    | OtherDbError

  const RecordNotFound := "Record not found"
  const UnknownDatabaseError := "Unknown database error"

  /** `From<DBError> for Error`. */
  function FromDbError(d: DbError): (e: Error)
    ensures d.DatabaseError? && d.kind == UniqueViolation && d.details.Some? ==> e == BadRequest(d.details.value)
    ensures d.DatabaseError? && d.kind == UniqueViolation && d.details.None? ==> e == BadRequest(d.message)
    ensures d.DbNotFound? <==> e == NotFound(RecordNotFound)
    ensures e.InternalServerError? <==> !(d.DatabaseError? && d.kind == UniqueViolation) && !d.DbNotFound?
    ensures e.InternalServerError? ==> e.message == UnknownDatabaseError
  {
    match d
    case DatabaseError(kind, message, details) =>
      if kind == UniqueViolation then
        BadRequest(match details case Some(text) => text case None => message)
      else
        InternalServerError(UnknownDatabaseError)
    case DbNotFound => NotFound(RecordNotFound)
    case OtherDbError => InternalServerError(UnknownDatabaseError)
  }

  /** A database error reaches the client as 400, 404 or a generic 500, never as 403 or 422. */
  lemma DbErrorStatus(d: DbError)
    ensures ErrorResponseOf(FromDbError(d)).status in {400, 404, 500}
    ensures ErrorResponseOf(FromDbError(d)).status == 400 <==> d.DatabaseError? && d.kind == UniqueViolation
  {
  }

  /** `From<PoolError>`. */
  function FromPoolError(message: string): (e: Error)
    ensures e.PoolError? && e.message == message
  {
    PoolError(message)
  }

  /** `From<BlockingError>`: the blocking error's detail is only logged. */
  function FromBlockingError(): (e: Error)
    ensures e == BlockingError("Thread blocking error")
  {
    BlockingError("Thread blocking error")
  }

  /** `From<ActixError>`. */
  function FromActixError(message: string): (e: Error)
    ensures e == InternalServerError(message)
  {
    InternalServerError(message)
  }

  /** Pool, blocking and framework errors all reach the client as the same generic 500. */
  lemma InfrastructureErrorsAreServerErrors(poolMessage: string, actixMessage: string)
    ensures ErrorResponseOf(FromPoolError(poolMessage)) == ErrorResponseOf(FromBlockingError())
    ensures ErrorResponseOf(FromActixError(actixMessage)) == ErrorResponseOf(FromBlockingError())
    ensures ErrorResponseOf(FromBlockingError()).status == 500
  {
  }
}
