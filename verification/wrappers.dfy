/** Optional values: a JavaScript value that may be missing (`undefined`, `null`, no match). */
module Wrappers {
  datatype Option<+T> = None | Some(value: T)
}
