// A nullable column or an optional answer.
module Wrappers {
  datatype Option<+T> = None | Some(value: T)
}
