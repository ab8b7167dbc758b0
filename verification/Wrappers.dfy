/** Optional values and fallible results, shared by every module of the model. */
module Wrappers {
  datatype Option<+T> = None | Some(value: T) {
    function UnwrapOr(default: T): T {
      match this case None => default case Some(v) => v
    }
  }
  datatype Result<+T, +E> = Ok(value: T) | Err(error: E)
}
