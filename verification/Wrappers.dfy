/** Values that may be absent: a nullable column or a query without a row. */
module Wrappers {
  datatype Option<+T> = None | Some(value: T)
}
