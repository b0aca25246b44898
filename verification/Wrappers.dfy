/** The option type used throughout: C's "pointer or NULL". */
module Wrappers {
  datatype Option<+T> = None | Some(value: T)
}
