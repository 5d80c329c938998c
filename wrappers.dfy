/** The optional value used for the post's state slot and for the text a state
    accepts from `add_text`. */
module Wrappers {

  datatype Option<+T> = None | Some(value: T)
}
