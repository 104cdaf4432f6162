/** Option and Result, and the Python exceptions that the modelled operations raise. */
module Wrappers {

  datatype Option<T> = None | Some(value: T) {
    /** `x if x is not None else default` */
    function GetOr(default: T): T {
      if Some? then value else default
    }
  }

  /** The exception classes the modelled code raises, by name. */
  datatype Error =
    | ValueError
    | IndexError
    | TypeError
    | ZeroDivisionError
    | RuntimeError

  /** The value an operation returns, or the exception it raises. */
  datatype Result<T> = Ok(value: T) | Err(error: Error)

  /** An operation that returns nothing, or raises. */
  datatype Outcome = Done | Raised(error: Error)

  function Min(a: int, b: int): int { if a <= b then a else b }

  function Max(a: int, b: int): int { if a >= b then a else b }
}
