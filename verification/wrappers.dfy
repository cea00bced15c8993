/** Failure-carrying values used by the ride-directory model. */
module Wrappers {

  /** A value that may be absent (the prototype's `null` / `undefined`). */
  datatype Option<+T> = None | Some(value: T) {
    /** The carried value, or `default` when absent (JavaScript's `??`). */
    function GetOr(default: T): T {
      match this
      case Some(v) => v
      case None => default
    }
  }

  /** Either an accepted value or the reason it was refused. */
  datatype Result<+T, +E> = Ok(value: T) | Err(error: E)
}
