/** The optional-value datatype used for JavaScript's `undefined` / absent values. */
module Wrappers {
  datatype Option<+T> = None | Some(value: T)
}
