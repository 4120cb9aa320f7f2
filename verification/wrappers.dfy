/** The optional-value datatype shared by the other modules. */
module Wrappers {

  /** `None` stands for JavaScript's `undefined`/`null` or a failed parse. */
  datatype Option<+T> = None | Some(value: T)
}
