/** The Option and Result datatypes shared by the other modules. */
module Wrappers {

  /** An optional value: the JavaScript `null`/`undefined` cases become None. */
  datatype Option<+T> = None | Some(value: T)

  /** The outcome of an operation that can fail with an error of type E. */
  datatype Result<+T, +E> = Ok(value: T) | Err(error: E)
}
