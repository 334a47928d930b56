/** The optional-value datatype shared by the dashboard modules. */
module Wrappers {

  /** `None` stands for "nothing happened / no value", `Some(v)` for a value. */
  datatype Option<+T> = None | Some(value: T)
}
