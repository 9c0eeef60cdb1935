/** The optional value used for browser state that may be absent. */
module Wrappers {

  datatype Option<+T> = None | Some(value: T)
}
