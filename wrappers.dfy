/** Option and Result types. The source signals failures by throwing an
    integer (`throw -1`, `throw -2`); the model returns `Err(code)` instead. */
module Wrappers {

  datatype Option<+T> = None | Some(value: T)

  datatype Result<+T> = Ok(value: T) | Err(code: int)
}
