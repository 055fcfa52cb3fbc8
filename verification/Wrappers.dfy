/** An optional value: a nullable column, a query without a row, an error that is not raised. */
module Wrappers {

  datatype Option<T> = None | Some(value: T)
}
