/** Failure-carrying wrappers shared by every module of the model. */
module Results {

  datatype Option<+T> = None | Some(value: T)

  /** The outcome of an operation that either yields a value or raises. */
  datatype Result<+T, +E> = Ok(value: T) | Err(error: E) {
    predicate IsOk() { Ok? }
  }

  /** The outcome of an operation that yields nothing or raises. */
  datatype Outcome<+E> = Pass | Fail(error: E)
}
