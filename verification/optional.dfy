/** A value that may be absent, as a JavaScript property or map lookup that
    can come back `undefined`. */
module Optional {

  datatype Option<+T> = None | Some(value: T)
}
