/** Failure-carrying values used in place of the PHP exceptions. */
module Wrappers {

  /** A value that may be absent (a nullable column or an optional array key). */
  datatype Option<+T> = None | Some(value: T) {

    /** The value if present, otherwise `default`. */
    function GetOr(default: T): T {
      match this
      case Some(v) => v
      case None => default
    }
  }

  /** The outcome of an operation that either returns a value or throws. */
  datatype Result<+T, +E> = Ok(value: T) | Err(error: E)

  /** The outcome of a `void` check that either returns or throws. */
  datatype Outcome<+E> = Pass | Fail(error: E)
}
