/** The optional value the Swift code expresses with `T?`. */
module Wrappers {

  datatype Option<+T> = None | Some(value: T)
}
