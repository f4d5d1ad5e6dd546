/** The two result types used throughout: `Option` for an absent value and `Result` for
    the repository's `Result<T, E>`. */
module Wrappers {
  datatype Option<+T> = None | Some(value: T)

  datatype Result<+T, +E> = Ok(value: T) | Err(error: E)
}
