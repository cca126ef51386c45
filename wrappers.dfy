/** Rust's `Option` and `Result`, as the automaton's operations return them. */
module Wrappers {

  /** `Option<T>`: what `get_transition` returns. */
  datatype Option<+T> = None | Some(value: T)

  /** `Result<T, E>`: what `accepts` returns (`Result<bool, bool>`). */
  datatype Result<+T, +E> = Ok(value: T) | Err(error: E)
}
