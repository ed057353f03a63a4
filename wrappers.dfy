/** The "value or no value" result used for Ruby's `nil`. */
module Wrappers {

  datatype Option<+T> = None | Some(value: T)
}
