/** Failure-carrying values shared by the whole model. */
module Wrappers {

  /** A value that may be absent: JavaScript's `undefined`/`null` where the source tests for it. */
  datatype Option<+T> = None | Some(value: T) {
    function GetOr(default: T): T {
      match this
      case Some(v) => v
      case None => default
    }
  }

  /** The outcome of an operation that can throw: `Failure` carries the error message. */
  datatype Result<+R, +E> = Success(value: R) | Failure(error: E)
}
