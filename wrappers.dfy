/** Optional values and error results, for the nil pointers and error returns of the Go server. */
module Wrappers {

  datatype Option<+T> = None | Some(value: T)

  datatype Result<+T> = Ok(value: T) | Err(error: string)
}
