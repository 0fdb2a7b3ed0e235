/** The optional value the parsers return where Python returns `None`. */
module Wrappers {

  datatype Option<+T> = None | Some(value: T)
}
