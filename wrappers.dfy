/** Option and Result values standing for Python's `None` and for raised exceptions. */
module Wrappers {

  datatype Option<+T> = None | Some(value: T) {

    /** Python's `x or default` for a value that is either a non-empty string or `None`. */
    function GetOr(default: T): T
    {
      match this
      case Some(v) => v
      case None => default
    }
  }

  /** A computation that either produced a value or raised; `Failure` carries a description. */
  datatype Result<+T> = Success(value: T) | Failure(reason: string)
}
