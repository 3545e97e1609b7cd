/** Failure-carrying datatypes shared by every module of the model. */
module Wrappers {

  /** A value that may be absent: Python's `None`, TypeScript's `null`. */
  datatype Option<+T> = None | Some(value: T) {

    /** The held value, or `default` when absent (TypeScript's `??`). */
    function GetOr(default: T): T
    {
      match this
      case Some(v) => v
      case None => default
    }
  }

  /** The outcome of an operation of the source that may raise. */
  datatype Result<+T, +E> = Ok(value: T) | Err(error: E)
}
