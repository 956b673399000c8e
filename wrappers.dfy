/** Option and Result values shared by the modules of the model. */
module Wrappers {

  /** A value that may be absent (JavaScript's `undefined`/`null` where the source tests for it). */
  datatype Option<+T> = None | Some(value: T) {
    function GetOr(default: T): T {
      match this
      case Some(v) => v
      case None => default
    }
  }

  /** The outcome of an operation that can fail with an error message. */
  datatype Result<+T> = Ok(value: T) | Err(error: string)
}
