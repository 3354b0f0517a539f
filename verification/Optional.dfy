/** A nullable column or an absent optional argument. */
module Optional {
  datatype Option<+T> = None | Some(value: T)
}
