/** The optional value used for "no image loaded" and "no glyph in this cell". */
module Wrappers {
  datatype Option<+T> = None | Some(value: T)
}
