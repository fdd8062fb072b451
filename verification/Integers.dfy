/** The source's integer widths, and counts that are cut to a cap. */
module Integers {
  const TWO_TO_31 := 0x8000_0000
  const TWO_TO_32 := 0x1_0000_0000
  const TWO_TO_63 := 0x8000_0000_0000_0000
  const TWO_TO_64 := 0x1_0000_0000_0000_0000

  type int32 = x: int | -TWO_TO_31 <= x < TWO_TO_31
  type int64 = x: int | -TWO_TO_63 <= x < TWO_TO_63
  type uint32 = x: int | 0 <= x < TWO_TO_32
  type uint64 = x: int | 0 <= x < TWO_TO_64

  function ToUint32(n: int): (r: uint32)
    ensures 0 <= n < TWO_TO_32 ==> r == n
    ensures (n - r) % TWO_TO_32 == 0
  {
    n % TWO_TO_32
  }

  /** The narrowing of a wider integer to 32 bits. */
  function ToInt32(n: int): (r: int32)
    ensures -TWO_TO_31 <= n < TWO_TO_31 ==> r == n
    ensures (n - r) % TWO_TO_32 == 0
  {
    if n % TWO_TO_32 < TWO_TO_31 then n % TWO_TO_32 else n % TWO_TO_32 - TWO_TO_32
  }

  function Capped(size: nat, cap: nat): (n: nat)
    ensures n <= size && n <= cap && (n == size || n == cap)
  {
    if size > cap then cap else size
  }

  /** How often a loop up to a signed size runs. */
  function Count(size: int32, cap: nat): (n: nat)
    ensures size <= 0 ==> n == 0
    ensures 0 <= size ==> n == Capped(size, cap)
  {
    if size < 0 then 0 else Capped(size, cap)
  }
}
