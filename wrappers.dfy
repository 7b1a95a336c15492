/** Optional values and results with an error, used for environment values and raised exceptions. */
module Wrappers {

  datatype Option<T> = None | Some(value: T)

  /** `Err` stands for an exception that propagates out of an operation. */
  datatype Result<T> = Ok(value: T) | Err(error: string)
}
