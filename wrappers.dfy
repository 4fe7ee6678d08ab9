/** Optional values and success-or-error results, used for JSON fields that may be
    absent and for validation that may fail. */
module Wrappers {

  /** A value that may be absent (`undefined` or `null` in the request body). */
  datatype Option<+T> = None | Some(value: T)

  /** The outcome of a step that either produces a value or reports an error. */
  datatype Result<+T, +E> = Ok(value: T) | Err(error: E)
}
