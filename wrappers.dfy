/** Option, Result and Outcome: the model's stand-ins for Go's nil pointers and (value, error) pairs. */
module Wrappers {

  /** A Go pointer or optional field: None is nil. */
  datatype Option<+T> = None | Some(value: T)

  /** A Go (value, error) pair in which an error discards the value. */
  datatype Result<+T, +E> = Ok(value: T) | Err(error: E)

  /** A Go function that returns only an error: Pass is a nil error. */
  datatype Outcome<+E> = Pass | Fail(error: E)
}
