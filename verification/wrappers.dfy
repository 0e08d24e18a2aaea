/** The optional value returned by computations that may run out of fuel. */
module Wrappers {

  datatype Option<+T> = None | Some(value: T)
}
