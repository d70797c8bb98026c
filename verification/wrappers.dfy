/** The optional value used for the results Python expresses with `None`. */
module Wrappers {

  datatype Option<+T> = None | Some(value: T)
}
