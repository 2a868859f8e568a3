/** The optional-value datatype shared by the lexer and parser models. */
module Wrappers {

  datatype Option<+T> = None | Some(value: T)
}
