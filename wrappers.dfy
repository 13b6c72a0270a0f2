// Option and exception outcomes shared by every module of the model.
module Wrappers {
  datatype Option<T> = None | Some(value: T)
  {
    function GetOr(default: T): (r: T)
      ensures this.Some? ==> r == value
      ensures this.None? ==> r == default
    {
      match this
      case None => default
      case Some(v) => v
    }
  }

  /** The Python exceptions that the modelled code can raise on some input. */
  datatype Exc =
    | TypeError
    | AttributeError
    | KeyError
    | ValueError
    | IndexError
    | ZeroDivisionError
    | UnboundLocalError
    /** struct.error, raised by struct.pack for a value its format cannot hold. */
    | StructError

  /** A value, or the exception the source raises instead of returning one. */
  datatype Outcome<T> = Ok(value: T) | Raised(exc: Exc)
}
