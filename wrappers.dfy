/** Optional values: a result that may be absent, such as the outcome of an
    external command that can fail. */
module Wrappers {

  datatype Option<+T> = None | Some(value: T)
}
