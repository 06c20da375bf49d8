/** Option and Result, the two wrappers the rest of the model returns. */
module Base {

  datatype Option<+T> = None | Some(value: T)

  /** A computation that either produced a value or threw. */
  datatype Result<+T, +E> = Ok(value: T) | Err(error: E)
}
