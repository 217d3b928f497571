/** Small helper datatypes shared by the modules of the page model. */
module Wrappers {

  /** A value that may be absent (a missing storage key, a timer handle not yet set). */
  datatype Option<+T> = None | Some(value: T)
}
