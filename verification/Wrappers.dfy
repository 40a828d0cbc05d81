/** Results of operations that may refuse. */
module Wrappers {

  datatype Option<+T> = None | Some(value: T)
}
