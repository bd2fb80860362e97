/** Optional values, standing in for JavaScript's `null` and for a regular
    expression match that may fail. */
module Wrappers {

  datatype Option<+T> = None | Some(value: T)
}
