/** Values shared by every part of the model. */
module Common {
  /** An optional value, as the source's `Option`. */
  datatype Option<T> = None | Some(value: T)
}
