/** The optional value used for the debouncer's nullable slots. */
module Wrappers {

  /** `None` stands for a C# `null` reference, `Some(v)` for a non-null one. */
  datatype Option<+T> = None | Some(value: T)
}
