/** The optional value used throughout the model (Rust's `Option`). */
module Optional {
  datatype Option<+T> = None | Some(value: T)
}
