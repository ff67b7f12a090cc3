/** Failure-carrying values shared by every module of the model.
    A Python `None` becomes `Option.None`; a Python exception that escapes an
    operation becomes `Result.Err` carrying the exception's class. */
module Results {

  datatype Option<+T> = None | Some(value: T) {

    /** The wrapped value, or `default` when there is none (Python's `x if x is not None else default`). */
    function GetOr(default: T): T {
      match this
      case Some(v) => v
      case None => default
    }
  }

  /** The Python exceptions the modelled operations can raise. */
  datatype PyError =
    | ZeroDivisionError
    | TypeError
    | AttributeError

  datatype Result<+T> = Ok(value: T) | Err(error: PyError)
}
