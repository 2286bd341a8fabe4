/** The two exceptions `remove_big_objects` raises, and the result types that
    carry them instead of raising. */
module Errors {

  /** `TypeError` for an unsupported element type, `ValueError` for a label map
      holding a negative label. */
  datatype Error = TypeError | ValueError

  /** A value or the exception that replaced it. */
  datatype Result<+T> = Ok(value: T) | Err(error: Error)

  /** A check that either passes or raises. */
  datatype Outcome = Pass | Fail(error: Error)
}
