/** Option and Result: a missing value (a C# null) and an operation that either
    yields a value or raises one of the source's exceptions. */
module Wrappers {

  datatype Option<+T> = None | Some(value: T)

  datatype Result<+R, +E> = Success(value: R) | Failure(error: E)
}
