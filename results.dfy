/** Optional values and success-or-error results: the model's stand-in for
    Python's `None` returns and for exceptions caught by a surrounding `try`. */
module Results {

  datatype Option<+T> = None | Some(value: T)

  datatype Result<+T, +E> = Success(value: T) | Failure(error: E)
}
