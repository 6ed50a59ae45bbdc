/** An optional value: a nullable column, or a row that may not be there. */
module Wrappers {
  datatype Option<+T> = None | Some(value: T)
}
