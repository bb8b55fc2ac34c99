/** Failure-carrying wrappers shared by every module of the model. */
module Base {

  /** An optional value: Python's `None` or a present value. */
  datatype Option<+T> = None | Some(value: T)

  /** The outcome of an operation that may raise: a value or the raised error. */
  datatype Result<+T, +E> = Ok(value: T) | Err(error: E)
}
