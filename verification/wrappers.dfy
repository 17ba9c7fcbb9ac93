/** Optional values and call outcomes shared by every module of the model. */
module Wrappers {

  /** A value that may be absent: JavaScript's `null`/`undefined`. */
  datatype Option<+T> = None | Some(value: T)

  /** The settled outcome of an awaited call: a value, or the error it throws. */
  datatype Result<+R, +E> = Success(value: R) | Failure(error: E) {

    /** Forgets the value, keeping only the thrown error (if any). */
    function Raised(): (r: Option<E>)
      ensures r.Some? <==> Failure?
    {
      match this
      case Success(_) => None
      case Failure(e) => Some(e)
    }
  }
}
