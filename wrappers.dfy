/** Option and Result values used for the source's `None` values and its error returns. */
module Wrappers {

  datatype Option<+T> = None | Some(value: T) {
    /** The value, or `default` when there is none (Python's `x or default` on optionals). */
    function GetOr(default: T): T {
      match this
      case Some(v) => v
      case None => default
    }
  }

  /** An HTTP error raised by a route: a status code and a message. */
  datatype ApiError = ApiError(code: int, message: string)

  datatype Result<+T> = Ok(value: T) | Err(error: ApiError)
}
