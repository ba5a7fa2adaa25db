/** A value that may be missing, as a Go pointer or a second result says it. */
module Options {

  datatype Option<+T> = None | Some(value: T)
}
