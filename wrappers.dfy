/** Option and Result, the failure-compatible wrappers used for null references and thrown exceptions. */
module Wrappers {

  /** A value or nothing; `None` stands for a C# null reference or a default value. */
  datatype Option<+T> = None | Some(value: T)

  /** A value, or the exception that the C# code would throw instead. */
  datatype Result<+R, +E> = Success(value: R) | Failure(error: E)
}
