/** The Some/None datatype used for partial operations (parsing). */
module Wrappers {

  datatype Option<+T> = None | Some(value: T)

}
