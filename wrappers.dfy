/** The optional-value datatype used across the model (an absent query
    parameter, a NULL column). */
module Wrappers {
  datatype Option<+T> = None | Some(value: T)
}
