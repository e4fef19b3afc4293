/** An optional value, as the source's `std::optional`. */
module Options {
  datatype Option<+T> = None | Some(value: T)
}
