/** The optional value used for the source's `None`-able fields and dictionary lookups. */
module Wrappers {

  datatype Option<+T> = None | Some(value: T)
}
