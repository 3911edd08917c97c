/** Optional values: an absent React prop, an unset ref, an undefined route. */
module Wrappers {
  datatype Option<+T> = None | Some(value: T)
}
