/** Failure-compatible wrappers shared by every module of the model. */
module Wrappers {

  /** A value that may be absent (`undefined`/`null` in the source, or `NaN` for a failed parse). */
  datatype Option<T> = None | Some(value: T) {
    function GetOr(default: T): T {
      match this
      case Some(v) => v
      case None => default
    }
  }

  /** The outcome of an operation that may throw an `Error` carrying a message. */
  datatype Result<T, E> = Ok(value: T) | Err(error: E)
}
