/** Failure-carrying results shared by every module: Go's `(T, error)` pairs
    and nil-able values are modelled with these two datatypes. */
module Wrappers {

  /** A value that may be absent (a Go nil, a missing key, a failed parse). */
  datatype Option<+T> = None | Some(value: T) {

    /** The carried value, or `default` when absent. */
    function GetOr(default: T): T {
      match this
      case Some(v) => v
      case None => default
    }
  }

  /** A Go `(T, error)` return: either a value or the error's message. */
  datatype Result<+T> = Ok(value: T) | Err(error: string) {

    predicate IsFailure() {
      Err?
    }
  }
}
