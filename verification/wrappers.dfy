/** Option and Result, the two failure-carrying values the rest of the model uses. */
module Wrappers {

  /** A nullable value: Kotlin's `T?`. */
  datatype Option<+T> = None | Some(value: T)

  /** Either a value or the exception that the source's code would have raised instead. */
  datatype Result<+T, +E> = Success(value: T) | Failure(error: E)

  /** Kotlin's elvis operator `a ?: b`. */
  function OrElse<T>(o: Option<T>, default: T): T
  {
    match o
    case Some(v) => v
    case None => default
  }
}
