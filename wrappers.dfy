/** Optional values, used where the source returns a null pointer or a `false` flag
    beside an out-parameter. */
module Wrappers {

  datatype Option<+T> = None | Some(value: T)
}
