/** Optional values and success-or-error results, shared by every module. */
module Wrappers {

  datatype Option<+T> = None | Some(value: T) {
    /** The value, or `default` when there is none (Python's `x or default`, `d.get(k, default)`). */
    function GetOr(default: T): T {
      match this
      case Some(v) => v
      case None => default
    }
  }

  /** The outcome of an operation that the source lets raise an exception. */
  datatype Result<+R, +E> = Ok(value: R) | Err(error: E)
}
