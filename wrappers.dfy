/** Optional values and results with an error message, as used by the request handlers. */
module Wrappers {

  /** A value that a caller may omit (an absent JSON member or a NULL column). */
  datatype Option<+T> = None | Some(value: T) {

    /** The value if present, `default` otherwise. */
    function GetOr(default: T): T {
      match this
      case Some(v) => v
      case None => default
    }
  }

  /** The outcome of a step that either produces a value or fails with a message. */
  datatype Result<+T> = Success(value: T) | Failure(error: string)
}
