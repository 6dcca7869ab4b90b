/** The optional value used for nullable columns, optional schema fields and "not found" results. */
module Wrappers {
  datatype Option<+T> = None | Some(value: T)
}
