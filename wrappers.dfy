/** Optional values and error-carrying results used throughout the model. */
module Wrappers {

  /** A value that may be absent; `None` stands for JavaScript's `null` or `undefined`. */
  datatype Option<+T> = None | Some(value: T)

  /** The outcome of a validation step: a value, or the message of a rejection. */
  datatype Result<+T, +E> = Ok(value: T) | Err(error: E)
}
