/** The Option type used for the parser's nullable pointers. */
module Wrappers {
  datatype Option<+T> = None | Some(value: T)
}
