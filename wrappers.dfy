/** Optional values: a SQL NULL, a `fetchone()` that found no row. */
module Wrappers {

  datatype Option<+T> = None | Some(value: T)
}
