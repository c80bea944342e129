/** Optional values, for the places where the C code passes a null pointer
    or Ruby holds `nil` in an instance variable. */
module Wrappers {
  datatype Option<+T> = None | Some(value: T)
}
