/** The optional value used throughout the model. */
module Common {
  datatype Option<+T> = None | Some(value: T)
}
