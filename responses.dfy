/**
  What a handler returns: a success body with its HTTP status, or one of the
  error payloads `{"error_code", "message"}` with its status.
 */
module Responses {
  import opened Store
  import opened Schemas

  datatype ErrorCode = Unauthorized | InvalidId | ValidationError | Duplicate | NotFound | DbError | ServerError

  /** The `error_code` text each error carries on the wire. */
  function CodeName(code: ErrorCode): (name: string)
    ensures |name| > 0
  {
    match code
    case Unauthorized => "UNAUTHORIZED"
    case InvalidId => "INVALID_ID"
    case ValidationError => "VALIDATION_ERROR"
    case Duplicate => "DUPLICATE"
    case NotFound => "NOT_FOUND"
    case DbError => "DB_ERROR"
    case ServerError => "SERVER_ERROR"
  }

  /** The HTTP status each error is sent with. */
  function ErrorStatus(code: ErrorCode): (status: int)
    ensures 400 <= status < 600
    ensures status == 500 <==> code == DbError || code == ServerError
    ensures status == 404 <==> code == NotFound
    ensures status == 401 <==> code == Unauthorized
    ensures status == 400 <==> code == InvalidId || code == ValidationError || code == Duplicate
  {
    match code
    case Unauthorized => 401
    case InvalidId => 400
    case ValidationError => 400
    case Duplicate => 400
    case NotFound => 404
    case DbError => 500
    case ServerError => 500
  }

  /** Error codes are told apart on the wire by their names alone. */
  lemma CodeNamesDistinct(a: ErrorCode, b: ErrorCode)
    requires CodeName(a) == CodeName(b)
    ensures a == b
  {
  }

  /** A device status report; `lastChecked` is the clock reading taken by the handler. */
  datatype StatusReport = StatusReport(id: string, status: string, lastChecked: Timestamp)

  datatype Body =
    | NoContent
    | Device(fields: map<string, JsonValue>)
    | DeviceList(items: seq<map<string, JsonValue>>)
    | DeviceStatus(report: StatusReport)

  datatype Response = Ok(status: int, body: Body) | Error(code: ErrorCode, message: string)

  /** The HTTP status of a response. */
  function StatusOf(r: Response): (status: int)
    ensures r.Error? ==> status == ErrorStatus(r.code)
    ensures r.Ok? ==> status == r.status
  {
    match r
    case Ok(status, _) => status
    case Error(code, _) => ErrorStatus(code)
  }

  const InvalidIdMessage := "Invalid device ID"
  const InvalidInputMessage := "Invalid input"
  const DuplicateMessage := "MAC address must be unique"
  const NotFoundMessage := "Device not found"
  const ServerErrorMessage := "Internal server error"

  /** Flask's 500 handler: an exception no handler caught. */
  const InternalError := Error(ServerError, ServerErrorMessage)
}
