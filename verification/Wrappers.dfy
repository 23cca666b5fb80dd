/** The one option type of the project. */
module Wrappers {
  datatype Option<+T> = None | Some(value: T)
}
