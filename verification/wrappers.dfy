/** The optional-value datatype used for "no record" and "no table entry". */
module Wrappers {

  datatype Option<+T> = None | Some(value: T)
}
