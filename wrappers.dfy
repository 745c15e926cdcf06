/** Option and Result, the shapes the Rust and TypeScript code use for absent values and errors. */
module Wrappers {

  datatype Option<+T> = None | Some(value: T) {
    function GetOr(default: T): T {
      match this
      case Some(v) => v
      case None => default
    }
  }

  datatype Result<+T, +E> = Ok(value: T) | Err(error: E)

  /** A byte of a message or attachment body (Rust `u8`). */
  type byte = x: int | 0 <= x < 256

  /** Instants are integer milliseconds since the Unix epoch. */
  type Millis = int

  const DAY_MS: int := 86_400_000
}
