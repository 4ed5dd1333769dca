/** Optional values and results with an error, used for the outcomes of
    storage reads, renderer calls and file reads. */
module Results {

  datatype Option<+T> = None | Some(value: T)

  datatype Result<+T, +E> = Ok(value: T) | Err(error: E)
}
