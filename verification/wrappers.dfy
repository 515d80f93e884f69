/** Optional values: Python's `Optional[str]` arguments and results. */
module Wrappers {

  datatype Option<+T> = None | Some(value: T)
}
