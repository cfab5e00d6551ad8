/** Python's `range(n)` as far as the publisher uses it: how many times a loop over it runs. */
module Ranges {

  /** `len(range(n))`: n for a non-negative n, and 0 otherwise. */
  function RangeLength(n: int): (len: nat)
    ensures n >= 0 ==> len == n
    ensures n < 0 ==> len == 0
  {
    if n < 0 then 0 else n
  }
}
