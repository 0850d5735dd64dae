/** The optional value used wherever the store answers `null` or a slot may be absent. */
module Wrappers {

  datatype Option<+T> = None | Some(value: T)
}
