// Signed 64-bit arithmetic as Go performs it on int64 and time.Duration:
// results wrap around, division truncates toward zero.
module Int64 {
  const TWO_63 := 0x8000_0000_0000_0000
  const TWO_64 := 0x1_0000_0000_0000_0000

  predicate Fits(x: int) {
    -TWO_63 <= x < TWO_63
  }

  type int64 = x: int | Fits(x)

  // The int64 congruent to x modulo 2^64; a value that already fits is kept.
  function Wrap(x: int): (r: int)
    ensures Fits(r) && (r - x) % TWO_64 == 0
    ensures Fits(x) ==> r == x
  {
    (x + TWO_63) % TWO_64 - TWO_63
  }

  // The remainder has the sign of x.
  function TruncDiv(x: int, y: int): (q: int)
    requires y > 0
    ensures x >= 0 ==> 0 <= x - q * y < y
    ensures x <= 0 ==> 0 <= q * y - x < y
  {
    if x >= 0 then x / y else -((-x) / y)
  }
}
