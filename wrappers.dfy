/** Optional values: a stored entry that may be missing, an optional field of a record. */
module Wrappers {

  datatype Option<+T> = None | Some(value: T)
}
