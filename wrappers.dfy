/** Option datatype used where the harness can fail without a value. */
module Wrappers {

  datatype Option<+T> = None | Some(value: T)
}
