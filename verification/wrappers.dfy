/** The optional value used for every nullable field of the report (`string | null`, `MarkerBox | null`). */
module Wrappers {

  datatype Option<+T> = None | Some(value: T)
}
