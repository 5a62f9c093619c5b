/** The optional value used wherever the game code works with a pointer or handle that may be null. */
module Wrappers {

  datatype Option<+T> = None | Some(value: T)
}
