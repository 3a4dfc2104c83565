/** Optional values and error results shared by every module of the model. */
module Wrappers {

  /** A value that may be absent: Python's `None` on one side, a value on the other. */
  datatype Option<+T> = None | Some(value: T) {

    /** The value, or `default` when absent. */
    function GetOr(default: T): T {
      match this
      case Some(v) => v
      case None => default
    }
  }

  /** The outcome of an operation that either succeeds or fails with an error value. */
  datatype Result<+T, +E> = Success(value: T) | Failure(error: E)
}
