/** The optional value that stands in for JavaScript's `null`. */
module Opt {
  datatype Option<+T> = None | Some(value: T)
}
