/** The optional value used for "the element may be missing" and "no option matched". */
module Wrappers {
  datatype Option<+T> = None | Some(value: T)
}
