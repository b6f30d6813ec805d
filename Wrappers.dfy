/** Optional values: the model's stand-in for pandas' NaN / None results. */
module Wrappers {
  datatype Option<+T> = None | Some(value: T)
}
