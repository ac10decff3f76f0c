/** The optional value used for the controller's `ipAddress` field and for matcher results. */
module Wrappers {
  datatype Option<+T> = None | Some(value: T)
}
