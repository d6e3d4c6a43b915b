/** The optional value used for "the pattern matched / did not match". */
module Wrappers {

  datatype Option<+T> = None | Some(value: T)
}
