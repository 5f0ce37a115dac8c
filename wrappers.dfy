/** Option and Result, the shapes of Go's `(value, error)` returns. */
module Wrappers {

  datatype Option<+T> = None | Some(value: T) {
    function GetOr(default: T): T {
      match this
      case Some(v) => v
      case None => default
    }
  }

  /** A Go `(T, error)` pair where exactly one side is meaningful; the error is its message. */
  datatype Result<+T> = Ok(value: T) | Err(error: string)
}
