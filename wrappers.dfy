/** Option and Result, the two failure-carrying shapes the configuration pipeline uses. */
module Wrappers {

  /** A value that may be absent: an unset environment variable, a NaN number. */
  datatype Option<+T> = None | Some(value: T) {

    /** The value, or `default` when absent (JavaScript's `??`). */
    function GetOr(default: T): T {
      match this
      case Some(v) => v
      case None => default
    }
  }

  /** The outcome of a step that can throw: a value, or the error it throws. */
  datatype Result<+R, +E> = Success(value: R) | Failure(error: E)
}
