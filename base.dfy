/** Values that may be absent: JavaScript's `undefined`/`null` and `NaN` results. */
module Base {
  datatype Option<+T> = None | Some(value: T)
}
