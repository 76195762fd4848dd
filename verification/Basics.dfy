/** Small types and functions that every part uses. */
module Basics {
  datatype Option<+T> = None | Some(value: T)

  function Min(a: nat, b: nat): (m: nat) {
    if a < b then a else b
  }

  function Max(a: nat, b: nat): (m: nat) {
    if a < b then b else a
  }
}
