/** Option type shared by the models (a lookup that may find nothing, an optional check). */
module Wrappers {

  datatype Option<+T> = None | Some(value: T)

}
