/** The optional value used for the model's optional fields and arguments. */
module Wrappers {
  datatype Option<+T> = None | Some(value: T)
}
