/** A value that may be missing; stands for null pointers, error returns and exceptions. */
module Options {
  datatype Option<T> = None | Some(value: T)
}
