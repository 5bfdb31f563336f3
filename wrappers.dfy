/** Optional values and results with an error, shared by every module of the model. */
module Wrappers {

  /** A value that may be absent: Go's nil, JavaScript's null/undefined. */
  datatype Option<+T> = None | Some(value: T) {
    function GetOr(default: T): T
    {
      match this
      case Some(v) => v
      case None => default
    }
  }

  /** The outcome of a Go call that returns `(value, error)`. */
  datatype Result<+R, +E> = Success(value: R) | Failure(error: E)
}
