/** The two result types every other module shares. */
module Results {
  /** A value that may be absent: Go's comma-ok idiom. */
  datatype Option<+T> = None | Some(value: T)

  /** A value or the reason there is none: Go's (value, error) pair. */
  datatype Result<+T, +E> = Ok(value: T) | Err(error: E)
}
