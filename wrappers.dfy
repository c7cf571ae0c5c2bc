/** The optional value used for absent query filters and absent request parts. */
module Wrappers {
  datatype Option<+T> = None | Some(value: T)
}
