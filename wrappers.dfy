/** The optional value used for the client's session slot. */
module Wrappers {

  datatype Option<+T> = None | Some(value: T)

}
