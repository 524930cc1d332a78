/** The optional-value datatype used across the model. */
module Wrappers {
  /** `None` stands for JavaScript's `undefined` (an absent property, an unset id). */
  datatype Option<+T> = None | Some(value: T)
}
