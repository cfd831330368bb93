/** Failure-compatible wrappers used across the model: an optional value
    (a JavaScript property that may be absent) and a success/failure result
    (a value, or the error the plugin would throw). */
module Wrappers {

  datatype Option<+T> = None | Some(value: T) {
    /** The wrapped value, or `default` when absent (underscore's `_.get` default). */
    function GetOr(default: T): T {
      match this
      case Some(v) => v
      case None => default
    }
  }

  datatype Result<+R, +E> = Success(value: R) | Failure(error: E)
}
