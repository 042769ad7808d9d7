/** The optional value every component below uses for Python's `None`. */
module Options {
  datatype Option<+T> = None | Some(value: T)
}
