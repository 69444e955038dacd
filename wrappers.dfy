/** Failure-compatible result types used for the service layer's exceptions. */
module Wrappers {

  datatype Option<+T> = None | Some(value: T) {
    function GetOr(default: T): T {
      match this
      case Some(v) => v
      case None => default
    }
  }

  /** The outcome of a call that either returns a value or raises an error. */
  datatype Result<+T, +E> = Ok(value: T) | Err(error: E)

  /** The outcome of a guard that returns nothing or raises an error. */
  datatype Outcome<+E> = Pass | Fail(error: E)
}
