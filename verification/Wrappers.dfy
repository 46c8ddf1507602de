/** Optional values, standing for the source's `T | undefined`. */
module Wrappers {
  datatype Option<+T> = None | Some(value: T)
}
