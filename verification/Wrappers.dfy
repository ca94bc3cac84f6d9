/** What several modules share. */
module Wrappers {

  datatype Option<T> = None | Some(value: T)

  function Max(x: nat, y: nat): nat { if x > y then x else y }
}
