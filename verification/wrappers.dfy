/** Failure-carrying values used throughout the model in place of PHP's
    nullable returns and thrown exceptions. */
module Wrappers {

  datatype Option<+T> = None | Some(value: T)

  /** Either a value or an error: the two ways a PHP method can finish. */
  datatype Result<+R, +E> = Success(value: R) | Failure(error: E)
}
