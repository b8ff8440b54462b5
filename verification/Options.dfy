/** The one shared datatype: a value that may be absent (`undefined` or `null` in the source). */
module Options {
  datatype Option<+T> = None | Some(value: T)
}
