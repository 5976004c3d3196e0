/** The optional value used wherever the source has `null`, `undefined` or `NaN`. */
module Options {
  datatype Option<T> = None | Some(value: T)
}
