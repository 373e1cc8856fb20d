/** The optional value used wherever the front-ends hold `None` or a value. */
module Wrappers {

  datatype Option<+T> = None | Some(value: T)

}
