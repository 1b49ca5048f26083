/**
 * Values shared by every part of the model: an optional value, the HTTP
 * error envelope the Go handlers answer with, and a result that is either
 * the handler's payload or such an error.
 */
module Base {

  datatype Option<+T> = None | Some(value: T)

  /** The HTTP status classes the backend handlers use for errors. */
  datatype Status = BadRequest | Unauthorized | Forbidden | NotFound | Conflict | InternalError

  function Code(s: Status): (c: nat)
    ensures 400 <= c < 600
    ensures s == InternalError <==> c >= 500
  {
    match s
    case BadRequest => 400
    case Unauthorized => 401
    case Forbidden => 403
    case NotFound => 404
    case Conflict => 409
    case InternalError => 500
  }

  /** An error response: its status and the `{"error": message}` body. */
  datatype Failure = Failure(status: Status, message: string)

  datatype Result<+T> = Ok(value: T) | Err(failure: Failure)
  {
    predicate IsFailure(s: Status) {
      Err? && failure.status == s
    }
  }
}
