/** The optional value used wherever the PHP code has a nullable value. */
module Wrappers {
  datatype Option<+T> = None | Some(value: T)
}
