/** The optional value used wherever the source yields NaN, `""` or "render nothing". */
module Wrappers {

  datatype Option<+T> = None | Some(value: T)
}
