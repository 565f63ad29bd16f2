/** The absent-or-present value the model uses for JavaScript's `null`. */
module Wrappers {
  datatype Option<+T> = None | Some(value: T)
}
