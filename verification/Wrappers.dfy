/** Small helpers that several modules share. */
module Wrappers {

  datatype Option<+T> = None | Some(value: T)

  /** One for a yes, so that places can be counted. */
  function Bit(b: bool): nat { if b then 1 else 0 }
}
