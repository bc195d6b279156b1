/** Small failure-carrying datatypes shared by the model. */
module Wrappers {

  /** A value that may be absent: a null reference, a missing property or a missing XML child. */
  datatype Option<T> = None | Some(value: T) {
    function GetOr(default: T): T {
      match this
      case Some(v) => v
      case None => default
    }
  }

  /** The outcome of loading a document (JUCE's `Result`). */
  datatype Outcome = Ok | Fail(message: string)
}
