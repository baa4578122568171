/** Optional values and fallible results: JavaScript's `undefined` and thrown
    exceptions, made explicit. */
module Results {

  /** A value that may be absent (`undefined` in the extension's code). */
  datatype Option<+T> = None | Some(value: T) {

    /** The `x || fallback` idiom for a possibly missing field. */
    function OrElse(fallback: T): T {
      match this
      case Some(v) => v
      case None => fallback
    }
  }

  /** The outcome of a computation that may throw. */
  datatype Result<+T, +E> = Success(value: T) | Failure(error: E)
}
