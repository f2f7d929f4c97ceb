/** The optional value used wherever the bot's Python code may raise or find nothing. */
module Wrappers {

  datatype Option<+T> = None | Some(value: T)
}
