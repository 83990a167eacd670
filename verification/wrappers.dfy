/** Failure-carrying values used wherever the program catches an exception
    or looks up an optional key. */
module Wrappers {

  /** A value that may be absent: a missing JSON key, or "no match". */
  datatype Option<+T> = None | Some(value: T) {

    /** Python's `d.get(key, default)` once the lookup is done. */
    function GetOr(default: T): T {
      match this
      case Some(v) => v
      case None => default
    }
  }

  /** The answer of a backend call: a value, or the message of the exception it raised. */
  datatype Result<+T> = Ok(value: T) | Err(error: string)

  /** The answer of a backend call that returns nothing useful. */
  datatype Outcome = Pass | Fail(error: string)
}
