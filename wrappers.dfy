/** An optional value, for Swift's `String?` and for a call made through an optional delegate. */
module Wrappers {
  datatype Option<+T> = None | Some(value: T)
}
