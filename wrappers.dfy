/** Kotlin's nullable values, as an Option datatype. */
module Wrappers {

  datatype Option<+T> = None | Some(value: T)
}
