/** Optional and fallible values: JavaScript's `null`/`undefined` and thrown errors. */
module Options {

  /** A value that may be missing (`null` or `undefined` in the dashboard). */
  datatype Option<T> = None | Some(value: T)

  /** The outcome of an operation that may throw. */
  datatype Result<T, E> = Ok(value: T) | Err(error: E)
}
