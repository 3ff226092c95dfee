/** Failure-carrying values shared by every module of the model. */
module Results {

  /** A value that may be absent (Python's `None`). */
  datatype Option<+T> = None | Some(value: T)

  /** Either a value or the message of the exception Python would raise. */
  datatype Result<+T> = Ok(value: T) | Err(error: string)
}
