/** Optional values: the model's stand-in for a nullable reference or a missing lookup. */
module Wrappers {
  datatype Option<+T> = None | Some(value: T)
}
