/** Option and Result, the two wrappers the model uses for JavaScript's `null` and for thrown errors. */
module Wrappers {

  /** A nullable value: `None` stands for `null` (or an absent key). */
  datatype Option<+T> = None | Some(value: T) {
    function GetOr(default: T): T {
      match this
      case Some(v) => v
      case None => default
    }
  }

  /** The outcome of an operation that either returns a value or throws an `Error` with a message. */
  datatype Result<+R, +E> = Ok(value: R) | Err(error: E)
}
