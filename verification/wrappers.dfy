/** Optional values: an absent field is `None`, never an empty string. */
module Wrappers {

  datatype Option<+T> = None | Some(value: T)
}
