/** Optional values, standing for Python's `None` / value. */
module Wrappers {

  datatype Option<+T> = None | Some(value: T)
}
