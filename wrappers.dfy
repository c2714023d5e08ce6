/** The optional value used for a document's title and for the result of a rule scan. */
module Wrappers {

  datatype Option<+T> = None | Some(value: T)
}
