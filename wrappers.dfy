/** Optional values, used for a request whose parsed body may be absent. */
module Wrappers {

  datatype Option<+T> = None | Some(value: T)
}
