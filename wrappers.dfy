/** Optional values, standing in for a pandas cell that may be missing or NaN. */
module Wrappers {

  datatype Option<+T> = None | Some(value: T)
}
