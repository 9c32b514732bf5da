/** The Option datatype: JavaScript's `undefined` result of a lookup becomes None. */
module Wrappers {

  datatype Option<+T> = None | Some(value: T)
}
