/** Optional values: the Go idiom of a value paired with an `ok` flag, or a nil error. */
module Wrappers {

  datatype Option<+T> = None | Some(value: T)
}
