/** The conventional optional value, standing for a nullable reference of the source. */
module Wrappers {
  datatype Option<+T> = None | Some(value: T)
}
