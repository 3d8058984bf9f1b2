/** Optional values and results with an error case, shared by the loader modules. */
module Wrappers {

  /** An argument that may be left out (Python's `None`). */
  datatype Option<T> = None | Some(value: T)

  /** The outcome of an operation that raises on malformed input. */
  datatype Result<T, E> = Ok(value: T) | Err(error: E)
}
