/** Option and result types used by the import command model. */
module Wrappers {

  /** A value that may be absent: PHP's `null` or a missing array key. */
  datatype Option<+T> = None | Some(value: T)

  /** A value or the error that stopped its computation (a PHP exception). */
  datatype Result<+T, +E> = Ok(value: T) | Err(error: E)
}
