/** The exceptions the controller lets escape, as values. */
module Failures {

  datatype Error =
    | OutOfRange(value: int)          // ValueError: brightness outside 0-100
    | NegativeDuration(duration: real) // ValueError: fade duration below 0
    | FileMissing(name: string)       // OSError from reading an attribute file that does not exist
    | DivisionByZero                  // ZeroDivisionError: normalising with a ceiling of 0

  datatype Result<T> = Ok(value: T) | Err(error: Error)

  /** What a setter does: return normally, or raise. */
  datatype Outcome = Pass | Fail(error: Error)
}
