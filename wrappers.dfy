/** The optional value used wherever the program meets a Go nil or a lookup that can fail. */
module Wrappers {

  datatype Option<+T> = None | Some(value: T)
}
