/** Failure-carrying results shared by every component of the model. */
module Wrappers {

  datatype Option<+T> = None | Some(value: T)

  /** What a Python call answers: a value, or the exception class it raises. */
  datatype Result<+T> = Ok(value: T) | Err(error: Error)

  /** The exception classes the modelled code raises. */
  datatype Error =
    | ValueError
    | LookupError
    | TypeError
    | RuntimeError
    | TimeoutError
    | TimeoutExpired
    | KeyboardInterrupt
    | ConnectionError
    | OSError
    | ZeroDivisionError
    | KeyError
    | IndexError
    | AssertionError
}
