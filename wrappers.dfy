/** The optional value shared by the parsers, the glyph table and the camera. */
module Wrappers {

  datatype Option<T> = None | Some(value: T)
}
