/** Small failure-carrying datatypes shared by the model. */
module Wrappers {

  /** A value that may be absent; stands for a TypeScript `T | undefined`. */
  datatype Option<+T> = None | Some(value: T) {

    /** The value, or `default` when absent (TypeScript's `??`). */
    function GetOr(default: T): T {
      match this
      case Some(v) => v
      case None => default
    }
  }

  /** The result of an operation that may throw: a value, or the message of the thrown `Error`. */
  datatype Outcome<+T> = Ok(value: T) | Throw(message: string)
}
