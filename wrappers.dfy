/** Optional values, for Python's `None` and for keys that may be absent, and
    results, for operations that raise. */
module Wrappers {

  datatype Option<+T> = None | Some(value: T) {
    function GetOr(default: T): T {
      match this
      case Some(v) => v
      case None => default
    }
  }

  /** A value, or the exception the source raises instead. */
  datatype Result<+T> = Success(value: T) | Failure(error: string)
}
