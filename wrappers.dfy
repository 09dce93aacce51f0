/** The Result type of the source: success with a value, or an error. */
module Wrappers {
  datatype Result<+T, +E> = Ok(value: T) | Err(error: E)
}
