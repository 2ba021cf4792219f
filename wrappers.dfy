/** Optional values, used for "not found" results and for Python's None. */
module Wrappers {

  datatype Option<+T> = None | Some(value: T)
}
