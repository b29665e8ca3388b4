/** The optional value used wherever a handler may stay silent. */
module Wrappers {

  datatype Option<+T> = None | Some(value: T)
}
