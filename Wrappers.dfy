/** The usual optional-value datatype, used for the parsers of names and paths. */
module Wrappers {

  datatype Option<+T> = None | Some(value: T)
}
