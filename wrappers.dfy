/** Optional values: the `(value, ok bool)` results of the Go source become `Option`. */
module Wrappers {

  datatype Option<+T> = None | Some(value: T)
}
