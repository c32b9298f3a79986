/** Optional and fallible results, used for memory lookups and for evaluation. */
module Wrappers {

  datatype Option<+T> = None | Some(value: T)

  /** `Ok` carries a value; `Fail` carries the semantic error that stopped the computation. */
  datatype Result<+T, +E> = Ok(value: T) | Fail(error: E)
}
