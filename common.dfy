/** Values shared by every module of the model. */
module Common {

  /** A value that may be missing: Python's `None` versus a value. */
  datatype Option<T> = None | Some(value: T)
}
