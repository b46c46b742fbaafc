/** Option and Result, the two failure-carrying shapes the model needs. */
module Wrappers {

  /** A value that may be absent: the source's `T | null`. */
  datatype Option<+T> = None | Some(value: T) {
    function GetOr(default: T): T {
      match this
      case Some(v) => v
      case None => default
    }
  }

  /** A value or the error that was raised instead of it. */
  datatype Result<+R, +E> = Success(value: R) | Failure(error: E)
}
