/** The optional value shared by the models: None stands for the source's
    error paths (a malformed colour, no strokes, a degenerate range, a
    zero-length segment). */
module Wrappers {

  datatype Option<T> = None | Some(value: T)
}
