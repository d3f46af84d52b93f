/** An optional value: JavaScript's `null` (or `NaN` from a failed parse) is `None`. */
module Options {
  datatype Option<+T> = None | Some(value: T)
}
