/** The optional values that the runtime's collaborators hand back (Python's `None`). */
module Wrappers {

  datatype Option<+T> = None | Some(value: T)

}
