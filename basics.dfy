/** Small shared datatypes. */
module Basics {

  /** A JavaScript value that may be `undefined`, or a slot that may be empty. */
  datatype Option<+T> = None | Some(value: T)
}
