/** The optional value used where the game engine returns `null` or leaves a
    variable `undefined`. */
module Wrappers {

  datatype Option<+T> = None | Some(value: T)
}
