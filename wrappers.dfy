/** The optional value used for "no match" and for a missing correct answer (Python's None). */
module Wrappers {

  datatype Option<+T> = None | Some(value: T)
}
