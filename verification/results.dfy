/** Failure-carrying wrappers shared by the rest of the model. */
module Results {

  /** An optional value: a JSON key that may be missing. */
  datatype Option<+T> = None | Some(value: T)

  /** The outcome of an operation that either returns a value or throws. */
  datatype Result<+T, +E> = Ok(value: T) | Err(error: E)
}
