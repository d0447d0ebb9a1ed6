/** Optional values: the model's stand-in for C's NULL pointers and "not found" returns. */
module Wrappers {

  datatype Option<+T> = None | Some(value: T)
}
