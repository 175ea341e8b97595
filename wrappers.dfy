/** Optional values and outcomes that carry either a value or an error. */
module Wrappers {

  /** A value that may be absent; JavaScript's `undefined` and `null` are both `None`. */
  datatype Option<+T> = None | Some(value: T)

  /** The settled state of a promise: resolved with a value or rejected with an error. */
  datatype Result<+T, +E> = Ok(value: T) | Err(error: E)
}
