/** The optional value used where the Java code passes a reference that may be null. */
module Wrappers {

  datatype Option<+T> = None | Some(value: T)
}
