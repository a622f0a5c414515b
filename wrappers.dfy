/** Option and Result values, and the aborts and readings, shared by every module of the model. */
module Wrappers {
  datatype Option<T> = None | Some(value: T)

  datatype Result<T, E> = Ok(value: T) | Err(error: E)

  /**
   * How a C run ends without returning: a failed `assert` (with the text of
   * its condition or message), recursion deeper than the stack, a read
   * through a NULL pointer, a write past the end of an allocation, or an
   * integer division or remainder by zero, or a loop that never ends.
   */
  datatype Abort = AssertFailed(msg: string) | StackExhausted | NullDereference | OutOfBounds | DivisionByZero | Diverges

  /**
   * Which text a model with a finding follows: the source as written, or
   * with the defect repaired.
   */
  datatype Reading = AsWritten | Corrected
}
