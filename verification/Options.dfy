/** A nullable column or an absent dictionary entry. */
module Options {
  datatype Option<+T> = None | Some(value: T)
}
