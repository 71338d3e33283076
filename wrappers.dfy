/** Optional values: `None` stands for Python's `None` and for a strategy that raised. */
module Wrappers {
  datatype Option<+T> = None | Some(value: T)
}
