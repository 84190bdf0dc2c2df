/** The optional value used for "no reply" and "not addressed to the bot". */
module Wrappers {
  datatype Option<+T> = None | Some(value: T)
}
