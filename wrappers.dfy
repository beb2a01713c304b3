/** The optional value used wherever the C code has a nullable pointer or a
    "not found" outcome. */
module Wrappers {
  datatype Option<+T> = None | Some(value: T)
}
