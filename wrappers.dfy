/** Optional values and results with an error, for the fields a record may
    lack and for the computations that raise in the original program. */
module Wrappers {

  datatype Option<+T> = None | Some(value: T)

  datatype Result<+T, +E> = Ok(value: T) | Err(error: E)
}
