/** Option and Result: stand-ins for C# null references and for error paths
    that the original code reports through a message box or an exception. */
module Wrappers {

  datatype Option<+T> = None | Some(value: T) {
    /** `x ?? default` in C#. */
    function GetOr(default: T): T {
      match this
      case Some(v) => v
      case None => default
    }
  }

  datatype Result<+R, +E> = Success(value: R) | Failure(error: E)
}
