/** Optional and fallible values used across the model. */
module Wrappers {

  /** `None` stands for JavaScript's `undefined`/`null` where a value may be absent. */
  datatype Option<+T> = None | Some(value: T)

  datatype Result<+T, +E> = Ok(value: T) | Err(error: E)
}
