/** Outcomes that may be absent, used where the source throws or answers with an error status. */
module Wrappers {
  datatype Option<+T> = None | Some(value: T)
}
