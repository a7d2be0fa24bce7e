/** Optional values shared by the whole model. */
module Wrappers {

  /** A value that may be missing (a pandas NaN cell, an absent dictionary key). */
  datatype Option<+T> = None | Some(value: T)
}
