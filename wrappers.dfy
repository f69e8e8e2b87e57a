/** The optional value used where the C code returns NULL or a sentinel. */
module Wrappers {

  datatype Option<+T> = None | Some(value: T)
}
