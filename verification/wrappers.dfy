/** Option and Result, the two shapes the client uses for "maybe absent" and
    "value or error". Go's nil pointers and (value, error) pairs map onto them. */
module Wrappers {

  /** A value that may be absent (a Go nil pointer or nil interface). */
  datatype Option<+T> = None | Some(value: T)

  /** The outcome of a call that returns either a value or an error. */
  datatype Result<+T, +E> = Ok(value: T) | Err(error: E)
}
