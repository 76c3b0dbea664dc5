/** Optional values, used wherever the storage engine may have nothing to return. */
module Wrappers {
  datatype Option<+T> = None | Some(value: T)
}
