/** Optional values: `None` stands for Python's `None` and, for numbers, for pandas' NaN. */
module Wrappers {
  datatype Option<+T> = None | Some(value: T)
}
