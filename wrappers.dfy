/** Optional values: the source's `null` / `undefined`. */
module Wrappers {

  datatype Option<+T> = None | Some(value: T)
}
