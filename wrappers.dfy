/** Optional values and the outcome of an operation that can throw. */
module Wrappers {

  datatype Option<T> = None | Some(value: T)

  /** `Err` carries the message of the exception the source throws. */
  datatype Result<T> = Ok(value: T) | Err(message: string)
}
