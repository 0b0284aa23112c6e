/** Optional values: a JavaScript `undefined`/`null` result is `None`. */
module Wrappers {
  datatype Option<+T> = None | Some(value: T)
}
