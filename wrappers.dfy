/** The optional value used for JavaScript's `undefined` and for "column not found". */
module Wrappers {

  datatype Option<+T> = None | Some(value: T)
}
