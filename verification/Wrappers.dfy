/** The source's null pointers and error returns. */
module Wrappers {
  /** A value that may be missing. */
  datatype Option<+T> = None | Some(value: T) {
    predicate IsFailure() {
      None?
    }

    function PropagateFailure<U>(): Option<U>
      requires None?
    {
      None
    }

    function Extract(): T
      requires Some?
    {
      value
    }
  }

  /** The outcome of writing a frame. */
  datatype Ret = Ok | BufferTooSmall
}
