/** The usual Some/None datatype, used for inputs that may be missing or fail. */
module Wrappers {

  datatype Option<+T> = None | Some(value: T)
}
