/** The conventional optional value, standing for a nullable column or a Python `None`. */
module Options {
  datatype Option<+T> = None | Some(value: T)
}
