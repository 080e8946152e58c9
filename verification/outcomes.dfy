/**
 Optional and fallible values.

 Python's `None` becomes `None`; an exception that the program raises and some
 caller catches becomes `Err(message)`, where the message is the `str()` of the
 exception.
 */
module Outcomes {

  datatype Option<+T> = None | Some(value: T) {

    /** The wrapped value, or `default` when there is none (Python's `x or default`). */
    function GetOr(default: T): T {
      match this
      case Some(v) => v
      case None => default
    }
  }

  datatype Result<T> = Ok(value: T) | Err(error: string)
}
