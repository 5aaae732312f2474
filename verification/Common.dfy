/** Datatypes shared by every module of the model. */
module Common {

  /** A value that may be absent: `null`, `undefined` or Rust's `None`. */
  datatype Option<+T> = None | Some(value: T)
}
