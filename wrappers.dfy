/** Optional values: JSON fields that may be absent or null. */
module Wrappers {

  datatype Option<+T> = None | Some(value: T)
}
