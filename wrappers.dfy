/** Option and Result, the wrappers the rest of the model uses. */
module Wrappers {

  /** A value that may be absent: JavaScript's `null` / `undefined`. */
  datatype Option<+T> = None | Some(value: T) {
    function GetOr(default: T): T {
      match this
      case Some(v) => v
      case None => default
    }
  }

  /** The outcome of an operation that may throw: `Ok` or the error it throws. */
  datatype Result<+T, +E> = Ok(value: T) | Err(error: E)
}
