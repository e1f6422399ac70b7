/**
 * What several models share: an optional value, powers, and the right shift.
 */
module Basics {

  datatype Option<+T> = None | Some(value: T)

  function Pow2(n: nat): (r: nat)
    ensures r > 0
  {
    if n == 0 then 1 else 2 * Pow2(n - 1)
  }

  function Pow256(n: nat): nat { if n == 0 then 1 else 256 * Pow256(n - 1) }

  // The arithmetic right shift, a bit at a time.
  function Shr(v: int, k: nat): int
    decreases k, v
  {
    if k == 0 then v else Shr(v / 2, k - 1)
  }
}
