/** Optional values: the model's stand-in for Python's exceptions on parse
    failure and for the "unset" float('inf') sentinel. */
module Wrappers {

  datatype Option<+T> = None | Some(value: T)
}
