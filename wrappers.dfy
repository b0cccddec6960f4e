/** The optional value used where the game code returns an index or `null`. */
module Wrappers {

  datatype Option<+T> = None | Some(value: T)

}
