/** Optional values, standing in for nullable references and pointers. */
module Wrappers {

  datatype Option<+T> = None | Some(value: T)
}
