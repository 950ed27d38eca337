/** Optional values, used for attributes an element may or may not carry. */
module Wrappers {
  datatype Option<T> = None | Some(value: T)
}
