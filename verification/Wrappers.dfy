/** The result shapes used throughout: Go's nil-able pointers, its error returns, and writes to Redis. */
module Wrappers {
  datatype Option<+T> = None | Some(value: T)

  datatype Result<+T, +E> = Ok(value: T) | Err(error: E)

  /** What became of a write to Redis, as the server and as the caller saw it. */
  datatype Fate = Applied | Lost(error: string) | Unacknowledged(error: string)
}
