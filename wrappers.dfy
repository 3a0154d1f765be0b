/** The optional-value and pass-or-fail wrappers used across the model. */
module Wrappers {

  /** A value that may be absent: for a configuration field, None means the key is not in the object. */
  datatype Option<+T> = None | Some(value: T)

  /** The outcome of a check that either passes or fails with an error description. */
  datatype Outcome<+E> = Pass | Fail(error: E)
}
