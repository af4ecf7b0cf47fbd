/** The optional value used for the game's "position or nothing" slots. */
module Wrappers {

  /** `None` stands for the JavaScript `false`/missing value the engine stores in an empty slot. */
  datatype Option<+T> = None | Some(value: T)
}
