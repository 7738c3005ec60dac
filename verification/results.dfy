/** Failure-carrying values used by the lexer model in place of Rust's
    `Option` and of `panic!`. */
module Results {

  /** A value that may be absent (Rust's `Option`). */
  datatype Option<+T> = None | Some(value: T)

  /** Either a value or an error; every `panic!` of the lexer becomes an `Err`. */
  datatype Result<+T, +E> = Ok(value: T) | Err(error: E)
}
