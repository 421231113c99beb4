/** The optional value the program gets from `Vec::pop` and from reading an action. */
module Wrappers {

  datatype Option<+T> = None | Some(value: T)
}
