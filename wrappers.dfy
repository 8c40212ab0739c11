/** Optional values (Java's nullable references) and the outcome of an
    operation that either returns a value or rejects with an error. */
module Wrappers {

  datatype Option<+T> = None | Some(value: T)

  datatype Result<+T, +E> = Ok(value: T) | Err(error: E)
}
