/** The failure-compatible optional value the rest of the model returns where
    the program raises an exception or has nothing to give back. */
module Wrappers {

  datatype Option<+T> = None | Some(value: T)
}
