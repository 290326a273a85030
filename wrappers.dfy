/** Optional values: JavaScript's `undefined` and absent keys. */
module Wrappers {
  datatype Option<+T> = None | Some(value: T)
}
