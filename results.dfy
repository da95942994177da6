/** Option and Result values for the model's error paths. */
module Results {

  datatype Option<+T> = None | Some(value: T)

  /** A computation that either produced a value or failed with an error. */
  datatype Result<+T, +E> = Ok(value: T) | Err(error: E)
}
