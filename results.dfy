/** Optional values and fallible results, used for the handlers' missing
    request fields and for the exceptions their parsing can raise. */
module Results {

  datatype Option<+T> = None | Some(value: T)

  datatype Result<+T, +E> = Success(value: T) | Failure(error: E)
}
