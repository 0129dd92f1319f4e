/** Option and Result values used across the model in place of PHP's
    null returns and of exceptions that are caught right away. */
module Wrappers {

  datatype Option<+T> = None | Some(value: T)

  /** A computation that either produced a value or threw an exception
      carrying a message. */
  datatype Result<+T> = Ok(value: T) | Err(message: string)
}
