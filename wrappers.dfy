/** The optional value used where the Kotlin source has a nullable type (`T?`). */
module Wrappers {
  datatype Option<+T> = None | Some(value: T)
}
