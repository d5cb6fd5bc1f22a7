/** Absent-or-present values and success-or-error results, used by every module. */
module Wrappers {

  /** An option slot that may be unset (Python's `None`). */
  datatype Option<+T> = None | Some(value: T)

  /** The outcome of a check that either accepts its input or names what is wrong with it. */
  datatype Result<+T, +E> = Ok(value: T) | Err(error: E)
}
