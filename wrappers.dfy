/** Small helper datatypes shared by the other modules. */
module Wrappers {

  /** A value that may be absent (a Python call that returned nothing or raised). */
  datatype Option<+T> = None | Some(value: T)
}
