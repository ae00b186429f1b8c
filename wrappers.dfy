/** Option and Result, standing in for C#'s null references and thrown exceptions. */
module Wrappers {

  /** `None` plays the role of a C# `null` reference. */
  datatype Option<+T> = None | Some(value: T) {
    function GetOr(default: T): T {
      match this
      case Some(v) => v
      case None => default
    }
  }

  /** `Failure` plays the role of an exception thrown before any network call. */
  datatype Result<+R, +E> = Success(value: R) | Failure(error: E)
}
