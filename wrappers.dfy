/** Failure-compatible result types used where the modelled code raises or yields no value. */
module Wrappers {

  datatype Option<+T> = None | Some(value: T)

  datatype Result<+R, +E> = Success(value: R) | Failure(error: E)

  /** Success or failure of a step that returns nothing. */
  datatype Outcome<+E> = Pass | Fail(error: E)
}
