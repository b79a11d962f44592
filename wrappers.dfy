/** The usual Some/None datatype, used for the outcomes the source reports through `nil` or an
    early `continue`. */
module Wrappers {

  datatype Option<+T> = None | Some(value: T)
}
