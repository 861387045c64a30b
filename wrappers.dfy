/** Option and Result datatypes shared by every module of the model. */
module Wrappers {

  /** A value that may be absent: a missing dictionary key, Python's `None`. */
  datatype Option<+T> = None | Some(value: T) {
    function GetOr(default: T): T {
      match this
      case Some(v) => v
      case None => default
    }
  }

  /** A computation that either returns a value or raises an exception. */
  datatype Result<+T, +E> = Ok(value: T) | Err(error: E)

  /** The Python exceptions the modelled code raises. */
  datatype Exception = TypeError | ValueError | KeyError | AttributeError | IndexError
}
