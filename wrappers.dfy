/** The optional value used where the benchmark's arithmetic has no finite result. */
module Wrappers {
  datatype Option<+T> = None | Some(value: T)
}
