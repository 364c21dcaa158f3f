/** Optional values and outcomes that either carry a value or an error message. */
module Wrappers {

  datatype Option<+T> = None | Some(value: T)

  /** The outcome of an operation that may throw: the value it returns, or the
      message of the exception it raises. */
  datatype Result<+T> = Ok(value: T) | Error(message: string)
}
