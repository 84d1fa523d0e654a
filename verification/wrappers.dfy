/** Optional values, used for a correlation that may be undefined. */
module Wrappers {

  /** `None` stands for a non-finite (NaN) floating-point result. */
  datatype Option<T> = None | Some(value: T)
}
