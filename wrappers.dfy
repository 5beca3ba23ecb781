/** Small failure-carrying datatypes shared by the whole model. */
module Wrappers {

  /** Python's `None` versus a present value. */
  datatype Option<+T> = None | Some(value: T) {
    function GetOr(default: T): T {
      match this
      case Some(v) => v
      case None => default
    }
  }

  /** The outcome of a Python call that either returns a value or raises an
      exception that the caller does not catch; `error` is the exception text. */
  datatype Attempt<+T> = Returned(value: T) | Raised(error: string)
}
