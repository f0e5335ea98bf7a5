/** The optional value that stands for Ruby's `nil` in the options hash and in entries. */
module Wrappers {
  datatype Option<+T> = None | Some(value: T)
}
