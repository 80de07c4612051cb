/** Option and Result values shared by every module of the model. */
module Wrappers {

  /** A value that may be absent (`undefined` / `null` in the source). */
  datatype Option<+T> = None | Some(value: T)

  /** The outcome of an operation that may fail (a rejected promise or a thrown error). */
  datatype Result<+T, +E> = Ok(value: T) | Err(error: E)
}
