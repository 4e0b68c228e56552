/** The optional-value datatype used for "no statement is emitted". */
module Wrappers {
  datatype Option<+T> = None | Some(value: T)
}
