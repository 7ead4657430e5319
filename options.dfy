/** The optional value used across the model for "maybe absent" results. */
module Options {
  datatype Option<+T> = None | Some(value: T)
}
