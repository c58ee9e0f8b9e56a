/** The optional value used wherever the bot reads something that may be absent
    (a challenge key, a message, a group id). */
module Wrappers {

  datatype Option<+T> = None | Some(value: T)

}
