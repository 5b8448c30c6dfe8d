/** The optional value used wherever the page may or may not hold something
    (a heading, an attribute, a saved preference). */
module Wrappers {

  datatype Option<+T> = None | Some(value: T)
}
