/** Optional values and success/failure results, as Swift optionals and `throws`
    (and PHP nullable values) use them throughout the app. */
module Wrappers {

  datatype Option<+T> = None | Some(value: T) {
    function GetOr(default: T): T {
      match this
      case Some(v) => v
      case None => default
    }
  }

  /** The outcome of a call that can fail: a network request, an ORM write. */
  datatype Result<+T, +E> = Success(value: T) | Failure(error: E)
}
