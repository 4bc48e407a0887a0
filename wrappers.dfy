/** Values for the source's `null` returns and thrown errors. */
module Wrappers {

  /** A value that may be absent (`T | null` in the source). */
  datatype Option<+T> = None | Some(value: T)

  /** A value, or the error the source throws instead of returning one. */
  datatype Result<+T, +E> = Ok(value: T) | Err(error: E)
}
