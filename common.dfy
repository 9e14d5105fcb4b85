/** The Option and Result wrappers shared by every module of the model. */
module Common {

  /** A value that may be absent: Python's `None` next to a real value. */
  datatype Option<+T> = None | Some(value: T)

  /** The outcome of Python code that either returns a value or raises. */
  datatype Result<+T, +E> = Ok(value: T) | Err(error: E)
}
