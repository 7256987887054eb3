/** Failure-carrying results used for the thrown errors of the store layer. */
module Wrappers {

  datatype Option<+T> = None | Some(value: T) {
    function GetOr(default: T): T {
      match this
      case Some(v) => v
      case None => default
    }
  }

  datatype Result<+R, +E> = Success(value: R) | Failure(error: E)

  /** The outcome of a procedure that either completes or throws. */
  datatype Outcome<+E> = Pass | Fail(error: E)
}
