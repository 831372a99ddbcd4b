/** Failure-carrying wrappers shared by the modules of the scanner model. */
module Results {

  /** A value that may be absent: Go's `(T, error)` pairs whose error carries no information we model. */
  datatype Option<+T> = None | Some(value: T)

  /** Either a value or an error: Go's `(T, error)` returns and `panic` calls. */
  datatype Result<+T, +E> = Ok(value: T) | Err(error: E)
}
