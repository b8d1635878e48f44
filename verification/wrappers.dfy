/** Failure-carrying datatypes used for the extractor's lookups and for the
    classifier's column selection. */
module Wrappers {

  /** A value that may be absent: a failed lookup, a missing attribute. */
  datatype Option<+T> = None | Some(value: T) {

    /** The value, or `default` when absent (Python's `x or default`). */
    function GetOr(default: T): T {
      match this
      case Some(v) => v
      case None => default
    }
  }

  /** Either a value or the error that stopped it from being produced. */
  datatype Result<+R, +E> = Success(value: R) | Failure(error: E)
}
