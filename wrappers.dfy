/** The Option datatype used for the bot's "value or null" results. */
module Wrappers {
  datatype Option<+T> = None | Some(value: T)
}
