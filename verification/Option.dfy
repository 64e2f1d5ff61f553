// The failure carrier the model uses for the source's error returns.
module Option {
  datatype Option<+T> = None | Some(value: T)
}
