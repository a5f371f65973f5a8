/** Go's 64-bit `int` (also the representation of `time.Duration`). */
module GoInt {

  const MinInt: int := -0x8000_0000_0000_0000
  const MaxInt: int := 0x7fff_ffff_ffff_ffff
  const Modulus: int := 0x1_0000_0000_0000_0000

  type Int64 = x: int | MinInt <= x <= MaxInt

  /** Reduces an unbounded integer to the two's-complement value Go keeps. */
  function Wrap(x: int): (r: Int64)
    ensures (r - x) % Modulus == 0
    ensures MinInt <= x <= MaxInt ==> r == x
  {
    (x - MinInt) % Modulus + MinInt
  }

  /** `n++` / `n += 1` on a Go int: exact below the maximum, wraps at it. */
  function Inc(n: Int64): (r: Int64)
    ensures n < MaxInt ==> r == n + 1
    ensures n == MaxInt ==> r == MinInt
  {
    Wrap(n + 1)
  }
}
