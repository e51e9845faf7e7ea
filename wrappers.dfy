/** The optional value used where a pandas reduction over an empty column
    would give NaN instead of a number. */
module Wrappers {

  datatype Option<+T> = None | Some(value: T)
}
