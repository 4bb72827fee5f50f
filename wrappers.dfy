/** The `T | null` results of the modelled functions. */
module Wrappers {

  datatype Option<+T> = None | Some(value: T)
}
