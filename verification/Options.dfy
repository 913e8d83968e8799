/** The one generic helper the model needs. */
module Options {
  datatype Option<+T> = None | Some(value: T)
}
