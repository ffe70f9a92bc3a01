/** The optional value of JavaScript (`null` / `undefined` or a value). */
module Wrappers {
  datatype Option<+T> = None | Some(value: T)
}
