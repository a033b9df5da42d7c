/** Kotlin's nullable values (`T?`), written as an option type. */
module Wrappers {

  datatype Option<+T> = None | Some(value: T)
}
