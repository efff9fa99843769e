/** The result type of operations that may have none, shared by the modules of the project. */
module Wrappers {
  datatype Option<+T> = None | Some(value: T)
}
