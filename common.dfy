/** Values that may be absent: a JavaScript property that is `undefined`. */
module Common {

  datatype Option<+T> = None | Some(value: T)
}
