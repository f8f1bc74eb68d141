/** Optional values, used where the C code returns NULL or leaves an out-parameter unwritten. */
module Wrappers {
  datatype Option<+T> = None | Some(value: T)
}
