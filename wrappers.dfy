/** Optional values, used where the modelled code yields "no match" or "no value". */
module Wrappers {

  datatype Option<+T> = None | Some(value: T)
}
