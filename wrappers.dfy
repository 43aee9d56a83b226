/** Option and Result, the two failure-carrying datatypes the model uses in
    place of Python's None and raised exceptions. */
module Wrappers {

  datatype Option<+T> = None | Some(value: T)

  /** `Failure` carries the text Python would put in the exception message. */
  datatype Result<+T> = Success(value: T) | Failure(error: string)
}
