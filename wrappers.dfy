/** Optional values, used for the error returns of the engine. */
module Wrappers {

  datatype Option<+T> = None | Some(value: T)
}
