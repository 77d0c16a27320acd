/** Failure-carrying values: Python's `None` returns and raised exceptions. */
module Wrappers {

  /** A Python value that may be `None`. */
  datatype Option<+T> = None | Some(value: T) {

    /** Returns the value in `Some`, or `default` when `None` (Python's `x if x is not None else d`). */
    function GetOr(default: T): T {
      match this
      case Some(v) => v
      case None => default
    }
  }

  /** An operation that returns a value or raises an exception carrying a message. */
  datatype Result<+R, +E> = Ok(value: R) | Err(error: E)
}
