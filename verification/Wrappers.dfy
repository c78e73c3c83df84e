module Wrappers {
  // A value that may be absent: a nil reference, a missing key, no answer.
  datatype Option<+T> = None | Some(value: T)
}
