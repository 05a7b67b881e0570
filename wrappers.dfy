/** Optional values and the outcome of a catalog request. */
module Wrappers {

  /** A value that may be absent: a record field that is null or undefined. */
  datatype Option<+T> = None | Some(value: T)

  /** What an awaited catalog request yields: its value, or a rejected promise. */
  datatype Outcome<+T> = Ok(value: T) | Fail
}
