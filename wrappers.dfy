/** Optional values: a JSON field that may be absent, a stored file that may not exist. */
module Wrappers {

  datatype Option<+T> = None | Some(value: T)
}
