/** The optional-value datatype used for landmarks a frame may lack and for
    the head stillness timer, which is either running or not started. */
module Wrappers {

  datatype Option<+T> = None | Some(value: T)
}
