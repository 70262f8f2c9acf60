/** Optional values: a DOM attribute that may be absent, a date that may be invalid. */
module Wrappers {
  datatype Option<+T> = None | Some(value: T)
}
