/** The Option type used for values that may be absent: a fetch that failed,
    a map lookup that missed. */
module Wrappers {
  datatype Option<+T> = None | Some(value: T)
}
