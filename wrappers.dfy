/** The optional values the source returns through `std::optional`. */
module Wrappers {
  datatype Option<+T> = None | Some(value: T)
}
