/** The optional-value datatype used for handler replies and message peeks. */
module Wrappers {

  datatype Option<+T> = None | Some(value: T)
}
