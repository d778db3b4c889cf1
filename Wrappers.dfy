/** Optional values and results with an error kind, standing in for JavaScript's
    `null`/`undefined` and for exceptions that propagate out of an operation. */
module Wrappers {

  datatype Option<+T> = None | Some(value: T) {
    function GetOr(default: T): T {
      match this
      case Some(v) => v
      case None => default
    }
  }

  /** Why an operation rejected: an API call that failed (a 404 from the tracker or a
      rejected probe), or a JavaScript TypeError from reading a property of `undefined`. */
  datatype Fault = NotFound | TypeError

  datatype Result<+T> = Success(value: T) | Failure(fault: Fault)
}
