/** Optional values and results with an error, as used throughout the model. */
module Results {

  /** Python's `None` versus a present value. */
  datatype Option<+T> = None | Some(value: T)

  /** The outcome of an operation that may raise: a value or the error raised. */
  datatype Result<+T, +E> = Ok(value: T) | Err(error: E)
}
