/** The Some/None datatype that stands for a nullable column or a nil pointer. */
module Options {
  datatype Option<+T> = None | Some(value: T)
}
