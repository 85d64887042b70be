/** The outcome of an operation that either produces a value or reports why
    it has none. */
module Results {
  datatype Result<T, E> = Ok(value: T) | Err(error: E)
}
