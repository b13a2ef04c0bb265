/** The optional value used for JavaScript's `null` / `undefined` returns. */
module Wrappers {

  datatype Option<+T> = None | Some(value: T)
}
