/** The optional-value datatype the models use for JavaScript's `null`/`""` results. */
module Wrappers {

  datatype Option<+T> = None | Some(value: T)
}
