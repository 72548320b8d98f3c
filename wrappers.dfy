/** The optional value used wherever the runner tests whether a key is present in a test-case mapping. */
module Wrappers {
  datatype Option<+T> = None | Some(value: T)
}
