/** The optional value the model uses for Swift's `Optional`. */
module Options {

  datatype Option<+T> = None | Some(value: T)
}
