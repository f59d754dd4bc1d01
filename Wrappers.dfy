/** Option and Result values used by every module of the model. */
module Wrappers {

  /** A value that may be missing (Python's `None`). */
  datatype Option<T> = None | Some(value: T) {
    /** The value, or `default` when it is missing. */
    function GetOr(default: T): T {
      if Some? then value else default
    }
  }

  /** The outcome of an operation that may raise: the value, or the message
      of the exception that escapes the operation. */
  datatype Result<T> = Ok(value: T) | Err(msg: string)
}
