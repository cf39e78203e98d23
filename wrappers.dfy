/** Optional values: a missing form field, a failed parse, a lookup that found no row. */
module Wrappers {

  datatype Option<+T> = None | Some(value: T)
}
