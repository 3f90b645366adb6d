/** The optional value used for the result of parsing an index argument. */
module Wrappers {

  datatype Option<+T> = None | Some(value: T)
}
