/** Optional values and success/failure results, as the route's callers see them. */
module Wrappers {

  /** A value that may be absent: a missing request parameter, a null property. */
  datatype Option<+T> = None | Some(value: T) {

    /** The carried value, or `default` when there is none. */
    function GetOr(default: T): T {
      match this
      case Some(v) => v
      case None => default
    }
  }

  /** The outcome of a route method: its return value, or the error it throws. */
  datatype Result<+R, +E> = Success(value: R) | Failure(error: E)
}
