/** Failure-carrying values shared by the other modules. */
module Results {

  /** A value that may be absent (an unset property, a missing last element). */
  datatype Option<T> = None | Some(value: T)

  /** The outcome of an operation that can throw: its value, or the exception it raises. */
  datatype Result<T, E> = Ok(value: T) | Err(error: E)
}
