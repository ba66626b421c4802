/** The optional value used wherever the source answers `npos`, throws, or finds nothing. */
module Wrappers {
  datatype Option<+T> = None | Some(value: T)
}
