/** The optional value used wherever the program either produces a value or
    raises an exception that its caller catches. */
module Wrappers {

  datatype Option<+T> = None | Some(value: T)
}
