/** Optional values, used where a parse or lookup can fail. */
module Wrappers {
  datatype Option<+T> = None | Some(value: T)
}
