/** The optional value used where the source reads `undefined`. */
module Wrappers {
  datatype Option<+T> = None | Some(value: T)
}
