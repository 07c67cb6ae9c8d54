/** Optional values, as std::optional and null shared pointers are used in the source. */
module Wrappers {

  datatype Option<+T> = None | Some(value: T)
}
