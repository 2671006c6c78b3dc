/** The optional value used for the dashboard's nullable fields (`null` / `undefined`). */
module Wrappers {

  datatype Option<+T> = None | Some(value: T)
}
