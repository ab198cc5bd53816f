/** The Option datatype used for an absent error and an absent ignore set. */
module Wrappers {

  datatype Option<+T> = None | Some(value: T)
}
