// An optional value: Go's nil pointers, comma-ok results and absent fields.
module Wrappers {
  datatype Option<+T> = None | Some(value: T)
}
