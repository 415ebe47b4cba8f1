/** The optional-value type used throughout the model (JavaScript's `undefined` is `None`). */
module Optional {
  datatype Option<+T> = None | Some(value: T)
}
