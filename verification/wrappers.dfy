/** Optional values and results, shared by the whole model. */
module Wrappers {

  /** A value that may be absent: SQL NULL, a missing row, a nil Go error. */
  datatype Option<+T> = None | Some(value: T) {

    /** The wrapped value, or `default` when absent. */
    function GetOr(default: T): T {
      match this
      case Some(v) => v
      case None => default
    }
  }

  /** Either a value or an error message. */
  datatype Result<+R> = Success(value: R) | Failure(error: string)
}
