/** The usual optional-value datatype, used for absent JSON fields and failed parses. */
module Wrappers {
  datatype Option<+T> = None | Some(value: T)
}
