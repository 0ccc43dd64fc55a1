/** Option and Result, the two failure-carrying shapes the model uses. */
module Wrappers {

  /** A value that may be absent (an absent key of a request body, a failed cast). */
  datatype Option<+T> = None | Some(value: T) {

    /** The wrapped value, or `default` when there is none. */
    function GetOr(default: T): T {
      match this
      case Some(v) => v
      case None => default
    }
  }

  /** Either a produced value or an error describing why none was produced. */
  datatype Result<+R, +E> = Success(value: R) | Failure(error: E)
}
