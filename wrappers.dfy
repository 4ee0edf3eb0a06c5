/** Optional values and results with an error, used instead of the sentinel values and
    exceptions of the loader. */
module Wrappers {

  datatype Option<+T> = None | Some(value: T)

  datatype Result<+T, +E> = Ok(value: T) | Err(error: E)
}
