/** Optional values and results, the way the Python code uses `None` and
    exceptions: a `Failure` carries the text of the exception (`str(e)`). */
module Wrappers {

  datatype Option<+T> = None | Some(value: T) {
    function GetOr(default: T): T {
      match this
      case Some(v) => v
      case None => default
    }
  }

  datatype Result<+R> = Success(value: R) | Failure(error: string)
}
