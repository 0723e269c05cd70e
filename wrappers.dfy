/** Optional values, for parses that may fail. */
module Wrappers {
  datatype Option<+T> = None | Some(value: T)
}
