/** Failure-carrying values used in place of Python's exceptions. */
module Results {

  datatype Option<+T> = None | Some(value: T)

  /** Either the value an operation returns or the error it raises. */
  datatype Result<+T, +E> = Ok(value: T) | Err(error: E)
}
