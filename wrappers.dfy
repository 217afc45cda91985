/** Optional values, standing for the pointers the checker dereferences. */
module Wrappers {
  datatype Option<+T> = None | Some(value: T)
}
