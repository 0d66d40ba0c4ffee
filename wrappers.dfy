/** Optional values and results with an error message, the shapes the engine
    expresses with `undefined` and with thrown errors. */
module Wrappers {
  datatype Option<T> = None | Some(value: T)

  datatype Result<T> = Ok(value: T) | Error(message: string)
  {
    predicate IsFailure() { Error? }
  }
}
