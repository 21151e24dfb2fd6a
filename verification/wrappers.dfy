/** Option and Result types shared by every module of the model. */
module Wrappers {

  datatype Option<+T> = None | Some(value: T) {
    /** `dict.get(key, default)`: the value when present, the default otherwise. */
    function GetOr(default: T): T {
      match this
      case Some(v) => v
      case None => default
    }
  }

  /** The Python exception classes that the modelled code raises or catches. */
  datatype Exception =
    | IndexError
    | KeyError
    | TypeError
    | AttributeError
    | ValueError
    | ZeroDivisionError
    | GenericException   // a bare `Exception(...)` raised by the code itself

  /** A value returned normally, or the exception that escapes the call. */
  datatype Result<+T> = Ok(value: T) | Raised(error: Exception)
}
