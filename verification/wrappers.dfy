/** Small failure-compatible wrappers shared by the whole model. */
module Wrappers {

  /** A value that may be absent: the model's reading of a JavaScript `undefined`. */
  datatype Option<+T> = None | Some(value: T) {

    /** The carried value, or `default` when absent (JavaScript's `??`). */
    function GetOr(default: T): T {
      match this
      case Some(v) => v
      case None => default
    }
  }

  /** Either a validated value or the first validation error found. */
  datatype Result<+R, +E> = Success(value: R) | Failure(error: E) {

    predicate IsFailure() {
      Failure?
    }
  }
}
