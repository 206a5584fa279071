/** Small shared datatypes for values that may be absent. */
module Wrappers {
  /** A JavaScript value that is either present or null/undefined. */
  datatype Option<+T> = None | Some(value: T)
}
