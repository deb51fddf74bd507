/** Option and Result values used for optional fields and for raised exceptions. */
module Wrappers {

  datatype Option<+T> = None | Some(value: T)

  /** `Failure` stands for an exception the modelled Python code raises. */
  datatype Result<+R, +E> = Success(value: R) | Failure(error: E)
}
