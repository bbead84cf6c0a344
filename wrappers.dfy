/** Optional values: a Go reference or slice that may be nil. */
module Wrappers {

  datatype Option<+T> = None | Some(value: T)

}
