/** The absence-or-value type used for JavaScript's `undefined` results. */
module Wrappers {

  /** `None` stands for `undefined` (or `null`), `Some(v)` for a present value. */
  datatype Option<+T> = None | Some(value: T)
}
