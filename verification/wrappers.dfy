/** Optional values and fallible results shared by every module of the model. */
module Wrappers {

  /** A value that may be absent: `None` stands for JavaScript's `undefined`/`null`. */
  datatype Option<+T> = None | Some(value: T) {
    /** The wrapped value, or `default` when absent (the `??` operator). */
    function GetOr(default: T): T {
      match this
      case Some(v) => v
      case None => default
    }
  }

  /** The outcome of an operation that can throw: `Failure` carries the error. */
  datatype Result<+T, +E> = Success(value: T) | Failure(error: E)

  /** What an awaited call does: returns a value, or throws. */
  datatype Outcome<+T> = Returned(value: T) | Threw
}
