/** The optional value used wherever the source has a pointer or a missing entry. */
module Wrappers {
  datatype Option<+T> = None | Some(value: T)
}
