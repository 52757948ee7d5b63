/** Option and Result used across the model. */
module Wrappers {

  /** A value that may be absent (Python's `None`). */
  datatype Option<+T> = None | Some(value: T) {
    function GetOr(default: T): T {
      match this
      case Some(v) => v
      case None => default
    }
  }

  /** Either a value or the error a Python `raise` would have produced. */
  datatype Result<+R, +E> = Success(value: R) | Failure(error: E)
}
