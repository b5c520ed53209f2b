/** Option and Result: a nullable reference and a value-or-exception. */
module Wrappers {

  /** `None` stands for a .NET null reference. */
  datatype Option<+T> = None | Some(value: T)

  /** `Failure` stands for an exception thrown out of the call. */
  datatype Result<+R, +E> = Success(value: R) | Failure(error: E)
}
