/** The optional value used for JavaScript's `undefined` alongside a real value. */
module Wrappers {
  datatype Option<+T> = None | Some(value: T)
}
