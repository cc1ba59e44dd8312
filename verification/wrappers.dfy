/** Failure-compatible helper datatypes shared by every module of the model. */
module Wrappers {

  /** A value that may be missing: JavaScript's `undefined`/`null` for a field or a lookup. */
  datatype Option<+T> = None | Some(value: T) {

    /** The wrapped value, or `default` when there is none (the `??` operator). */
    function GetOr(default: T): T {
      match this
      case Some(v) => v
      case None => default
    }
  }

  /** The outcome of an asynchronous call: it resolved with a value or it threw. */
  datatype Result<+R, +E> = Success(value: R) | Failure(error: E)
}
