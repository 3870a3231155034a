/** Optional values, for the partial inverses of the formatting functions. */
module Wrappers {

  datatype Option<+T> = None | Some(value: T)
}
