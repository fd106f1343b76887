/** Optional values, used for JavaScript's `null`/`undefined` and for absent options. */
module Wrappers {
  datatype Option<+T> = None | Some(value: T)
}
