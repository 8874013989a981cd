/** Facts about Euclidean division that the byte and hash arithmetic of the
    other modules rests on, stated once with a symbolic divisor so that
    each use is a linear step with a concrete one. */
module Arith {

  /** A nonzero multiple of `d` is at least `d` away from zero. */
  lemma {:induction false} MulAtLeast(a: int, d: int)
    requires d > 0
    ensures a >= 1 ==> a * d >= d
    ensures a <= -1 ==> a * d <= -d
    decreases if a < 0 then -a else a
  {
    if a > 1 {
      MulAtLeast(a - 1, d);
    } else if a < -1 {
      MulAtLeast(a + 1, d);
    }
  }

  /** Quotient and remainder are unique: any `q`, `r` with `x == q * d + r`
      and `0 <= r < d` are `x / d` and `x % d`. */
  lemma DivQuot(x: int, d: int, q: int, r: int)
    requires d > 0 && 0 <= r < d && x == q * d + r
    ensures x / d == q && x % d == r
  {
    var q0, r0 := x / d, x % d;
    assert x == q0 * d + r0 && 0 <= r0 < d;
    assert (q - q0) * d == r0 - r;
    MulAtLeast(q - q0, d);
  }

  /** Taking `m` multiples of `d` off `x` takes `m` off the quotient and
      leaves the remainder. */
  lemma DropMultiple(x: int, d: int, m: int)
    requires d > 0
    ensures (x - m * d) / d == x / d - m && (x - m * d) % d == x % d
  {
    DivQuot(x - m * d, d, x / d - m, x % d);
  }
}
