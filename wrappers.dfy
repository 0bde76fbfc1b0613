/** Stand-ins for the host's null references and exceptions. */
module Wrappers {

  /** A value that may be absent: `None` models a C# or JavaScript null. */
  datatype Option<+T> = None | Some(value: T)

  /** The outcome of an operation that may throw: `Failure` carries the exception. */
  datatype Result<+R, +E> = Success(value: R) | Failure(error: E)
}
