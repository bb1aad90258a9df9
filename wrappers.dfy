/** Optional values, used for the results of parsing. */
module Wrappers {

  /** `None` stands for a parse that yields no number (JavaScript's NaN). */
  datatype Option<+T> = None | Some(value: T)
}
