/** Option, used wherever the source returns a value or Python's None. */
module Wrappers {

  datatype Option<+T> = None | Some(value: T)
}
