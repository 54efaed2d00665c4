/**
 * The service's exception kinds and `GlobalExceptionHandler`, which turns each
 * into an HTTP status and a one-entry JSON body.
 */
module Exceptions {

  /** The four exception classes the handler knows, each with its message text. */
  datatype AppError =
    | UnknownMessageType(message: string)
    | MessageDeserialization(message: string)
    | Publish(message: string)
    | Storage(message: string)

  /** `new UnknownMessageTypeException(className)` */
  function UnknownMessageTypeError(className: string): AppError
  {
    UnknownMessageType("Unknown message type: " + className)
  }

  /** `new MessageDeserializationException(className, cause)` */
  function DeserializationError(className: string): AppError
  {
    MessageDeserialization("Failed to deserialize message as " + className)
  }

  /** Errors caused by the request itself rather than by a backend. */
  predicate IsClientError(e: AppError)
  {
    e.UnknownMessageType? || e.MessageDeserialization?
  }

  const BAD_REQUEST: int := 400
  const INTERNAL_SERVER_ERROR: int := 500

  datatype HttpResponse = HttpResponse(status: int, body: map<string, string>)

  /**
   * The four `@ExceptionHandler` methods as one total function: the status
   * is 400 for a request's own fault and 500 for a backend failure, and the
   * body is always `{"error": message}`.
   */
  function Handle(e: AppError): (r: HttpResponse)
    ensures r.status == BAD_REQUEST || r.status == INTERNAL_SERVER_ERROR
    ensures r.status == BAD_REQUEST <==> IsClientError(e)
    ensures r.body.Keys == {"error"} && r.body["error"] == e.message
  {
    match e
    case UnknownMessageType(m) => HttpResponse(BAD_REQUEST, map["error" := m])
    case MessageDeserialization(m) => HttpResponse(BAD_REQUEST, map["error" := m])
    case Publish(m) => HttpResponse(INTERNAL_SERVER_ERROR, map["error" := m])
    case Storage(m) => HttpResponse(INTERNAL_SERVER_ERROR, map["error" := m])
  }
}
