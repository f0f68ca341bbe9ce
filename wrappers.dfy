/** Python's `None`-or-value, as used for the two locals that `calculate` returns. */
module Wrappers {

  datatype Option<+T> = None | Some(value: T)
}
