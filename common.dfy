/** Optional values and outcomes with an error message, shared by every layer. */
module Common {

  datatype Option<T> = None | Some(value: T)

  datatype Result<T, E> = Success(value: T) | Failure(error: E) {
    predicate IsFailure() { Failure? }
  }
}
