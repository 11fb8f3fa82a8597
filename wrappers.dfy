/** Option and the error-carrying Result that the route handlers and
    context operations return. `Status` is the HTTP status class a handler
    answers with; the model keeps only the tag and the message. */
module Wrappers {

  datatype Option<+T> = None | Some(value: T) {
    function GetOr(default: T): T {
      match this
      case Some(v) => v
      case None => default
    }
  }

  /** The error statuses the route handlers answer with. */
  datatype Status = BadRequest | Unauthorized | Forbidden | NotFound | ServerError

  datatype Result<+T> = Ok(value: T) | Err(status: Status, message: string)
}
