module Wrappers {
  /** A value that may be missing; `None` stands for JavaScript's `undefined` (and the `NaN` computed from it). */
  datatype Option<T> = None | Some(value: T)
}
