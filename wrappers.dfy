/** The optional value used for "not found" and "no such index". */
module Wrappers {

  datatype Option<+T> = None | Some(value: T)
}
