/** The optional value returned by a header lookup: JavaScript's `null` is `None`. */
module Wrappers {

  datatype Option<+T> = None | Some(value: T)
}
