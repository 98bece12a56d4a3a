/** Optional values and error returns used across the model. */
module Wrappers {
  /** A value that may be missing (Python's None). */
  datatype Option<T> = None | Some(value: T)

  /** The outcome of an operation that can fail with an error the caller sees. */
  datatype Result<T, E> = Ok(value: T) | Err(error: E)
}
