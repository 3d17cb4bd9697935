/** Optional values: stands in for the null that the bank's lookups return. */
module Wrappers {
  datatype Option<+T> = None | Some(value: T)
}
