/** Optional values, standing for Python's `None` and for "no such element". */
module Wrappers {

  datatype Option<+T> = None | Some(value: T)

}
