/** Optional values and success-or-error results used across the model. */
module Outcome {

  /** A value that may be absent, as for a failed parse. */
  datatype Option<+T> = None | Some(value: T)

  /** Either a computed value or an error, as for an HTTP handler that may reject a request. */
  datatype Result<+T, +E> = Ok(value: T) | Err(error: E)
}
