/** Optional values, used for keys and columns that may be absent. */
module Wrappers {
  datatype Option<+T> = None | Some(value: T)
}
