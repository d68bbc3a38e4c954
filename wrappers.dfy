/** Optional values: a Python `None`, or a failure (an exception raised by the
    source) that the model reports instead of crashing. */
module Wrappers {

  datatype Option<+T> = None | Some(value: T)

}
