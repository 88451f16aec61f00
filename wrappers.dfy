/** Optional values, standing in for the nullable pointers and failing lookups of the system. */
module Wrappers {

  datatype Option<+T> = None | Some(value: T)
}
