/** The optional-value wrapper the model uses for Python's `None`. */
module Wrappers {

  /** `None` or a present value. */
  datatype Option<+T> = None | Some(value: T)
}
