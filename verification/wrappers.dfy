/** Failure-carrying datatypes shared by every module of the model. */
module Wrappers {

  /** A value that may be absent: Python's `None` or a present value. */
  datatype Option<+T> = None | Some(value: T)
  {
    /** Python's `x or default` for an optional value whose present form is never falsy. */
    function GetOr(default: T): T
    {
      match this
      case Some(v) => v
      case None => default
    }
  }

  /** Either a value or the exception that was raised instead. */
  datatype Result<+T, +E> = Ok(value: T) | Err(error: E)

  /** What one call to a remote service answered: a value, or an exception whose text is `msg`. */
  datatype Outcome<+T> = Success(value: T) | Error(msg: string)
}
