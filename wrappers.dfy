/** Option, Result and Outcome: the absent value, and a return that either
    carries a value or an error, as the services use them. */
module Wrappers {

  /** Java's Optional, or a nullable field. */
  datatype Option<+T> = None | Some(value: T)

  /** A value, or the exception the operation throws instead. */
  datatype Result<+T, +E> = Ok(value: T) | Err(error: E)

  /** A `void` operation that completes or throws. */
  datatype Outcome<+E> = Pass | Fail(error: E)
}
