/** Option and Result values used for the nullable and throwing paths of the source. */
module Wrappers {

  datatype Option<+T> = None | Some(value: T) {
    /** The `??` operator of the source: the value, or a default for null/undefined. */
    function GetOr(default: T): T {
      match this
      case Some(v) => v
      case None => default
    }
  }

  /** Ok for a normal return, Err for a thrown error or a rejected promise. */
  datatype Result<+R, +E> = Ok(value: R) | Err(error: E)
}
