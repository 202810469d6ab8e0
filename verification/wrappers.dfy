/** Optional values and error-or-value results, used for the source's `None`
    returns and raised exceptions. */
module Wrappers {

  datatype Option<T> = None | Some(value: T)

  datatype Result<T, E> = Ok(value: T) | Err(error: E)

}
