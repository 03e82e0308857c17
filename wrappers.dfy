/** A nullable value: SQL NULL and Python's None. */
module Wrappers {

  datatype Option<+T> = None | Some(value: T)
}
