/** Option, Result and Outcome, used for the error paths of the native runtime. */
module Wrappers {

  /** Something or nothing (a nullable pointer in the source). */
  datatype Option<+T> = None | Some(value: T)

  /** A value or the error that prevented it (a thrown exception in the source). */
  datatype Result<+T, +E> = Success(value: T) | Failure(error: E)

  /** Success without a value, or the error raised instead. */
  datatype Outcome<+E> = Pass | Fail(error: E)
}
