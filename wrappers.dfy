/** Optional values: a JavaScript property that may be undefined, a parse that may fail. */
module Wrappers {

  datatype Option<+T> = None | Some(value: T)
}
