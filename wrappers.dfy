/** Optional values and results that carry an error message instead of raising. */
module Wrappers {

  datatype Option<+T> = None | Some(value: T)

  /** `Err(message)` stands for a Python exception whose message is `message`. */
  datatype Result<+T> = Ok(value: T) | Err(error: string)
}
