/** A value that may be JavaScript's `undefined`. */
module Options {

  datatype Option<T> = None | Some(value: T)
}
