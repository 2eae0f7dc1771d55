/** The optional value used for nullable slots and for engine steps that may fail. */
module Wrappers {
  datatype Option<+T> = None | Some(value: T)
}
