/** Optional values: Go's nil-able pointers and SQL's NULL. */
module Wrappers {
  datatype Option<+T> = None | Some(value: T)
}
