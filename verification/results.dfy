/** The outcome of an operation of the library that can panic. */
module Results {

  /** `Ok(value)` when the operation returns, `Err(error)` when it panics with `error`. */
  datatype Result<+T, +E> = Ok(value: T) | Err(error: E)
}
