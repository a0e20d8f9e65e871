/** The fixed-width integers the connection code computes in. A value that leaves its
    range wraps here exactly as the Go conversion does, so that the absence of
    wrap-around is something proved of the callers and not something assumed. */
module FixedWidth {

  type Byte = x: int | 0 <= x < 256

  const TWO_31 := 0x8000_0000
  const TWO_32 := 0x1_0000_0000
  const TWO_63 := 0x8000_0000_0000_0000
  const TWO_64 := 0x1_0000_0000_0000_0000

  /** 2^31-1, the largest flow-control window section 6.9.1 of RFC 7540 allows. */
  const MAX_WINDOW := 0x7fff_ffff

  function ToInt32(x: int): (r: int)
    ensures -TWO_31 <= r < TWO_31
    ensures -TWO_31 <= x < TWO_31 ==> r == x
  {
    if -TWO_31 <= x < TWO_31 then x else (x + TWO_31) % TWO_32 - TWO_31
  }

  function ToInt64(x: int): (r: int)
    ensures -TWO_63 <= r < TWO_63
    ensures -TWO_63 <= x < TWO_63 ==> r == x
  {
    if -TWO_63 <= x < TWO_63 then x else (x + TWO_63) % TWO_64 - TWO_63
  }

  function ToUint32(x: int): (r: nat)
    ensures r < TWO_32
    ensures 0 <= x < TWO_32 ==> r == x
  {
    if 0 <= x < TWO_32 then x else x % TWO_32
  }

  function ToUint64(x: int): (r: nat)
    ensures r < TWO_64
    ensures 0 <= x < TWO_64 ==> r == x
  {
    if 0 <= x < TWO_64 then x else x % TWO_64
  }

  function Min(a: int, b: int): int {
    if a <= b then a else b
  }

  function Max(a: int, b: int): int {
    if a <= b then b else a
  }
}
