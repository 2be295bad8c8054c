/** The optional value used wherever a lookup can come back empty. */
module Wrappers {

  datatype Option<+T> = None | Some(value: T)
}
