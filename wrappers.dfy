/** The optional-value datatype shared by the scope and bundler models. */
module Wrappers {

  /** A value that may be absent: Go's "value, error" pairs and nil results map onto it. */
  datatype Option<+T> = None | Some(value: T)
}
