/** Optional values, standing for the nullable and possibly-undefined values of the source. */
module Wrappers {

  datatype Option<+T> = None | Some(value: T)
}
