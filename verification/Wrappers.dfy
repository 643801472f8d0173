/** The optional value every module shares: a nullable column, a missing row, an absent argument. */
module Wrappers {
  datatype Option<+T> = None | Some(value: T)
}
