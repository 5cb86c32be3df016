/** Optional values and the outcome of a step that may fail. */
module Results {

  /** A value that may be missing: an unset environment variable, an absent
      JSON property. */
  datatype Option<+T> = None | Some(value: T)

  /** Either the value a step produced or the error it raised. */
  datatype Result<+T, +E> = Success(value: T) | Failure(error: E)
}
