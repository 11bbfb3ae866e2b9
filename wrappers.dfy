/** Optional values and results with an error message, as the JavaScript code
    uses `undefined` fields and thrown `Error`s. */
module Wrappers {

  datatype Option<+T> = None | Some(value: T) {
    /** `x ?? d`, for an optional field read with a fallback */
    function GetOr(default: T): T {
      match this
      case Some(v) => v
      case None => default
    }
  }

  /** A value, or the message of the `Error` the source would throw. */
  datatype Result<+T> = Success(value: T) | Failure(message: string)
}
