/** Small definitions that several of the models share. */
module Basics {

  datatype Option<T> = None | Some(value: T)

  function One(b: bool): nat { if b then 1 else 0 }

  function Min(a: nat, b: nat): nat { if a < b then a else b }

  /** How many times a loop that counts from 0 up to n goes round. */
  function Passes(n: int): nat { if n > 0 then n else 0 }

  /** k times x, one x at a time. */
  function Times(k: nat, x: nat): nat { if k == 0 then 0 else x + Times(k - 1, x) }
}
