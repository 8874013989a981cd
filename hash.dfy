/** The 32-bit polynomial string hash `generateHash` that both patient-record
    services define (filebaseService.js and ipfsService.js carry the same
    code). For a non-string argument the source first applies
    JSON.stringify; here the argument is always that JSON text. */
module Hash {

  import opened Strs
  import Arith

  const Two31: int := 0x8000_0000
  const Two32: int := 0x1_0000_0000

  /** ECMAScript ToInt32: reduce modulo 2^32 into [-2^31, 2^31). */
  function ToInt32(x: int): (r: int)
    ensures -Two31 <= r < Two31
  {
    var m := x % Two32;
    if m >= Two31 then m - Two32 else m
  }

  /** How many times ToInt32 subtracts 2^32. */
  function Wraps(x: int): int
  {
    x / Two32 + (if x % Two32 >= Two31 then 1 else 0)
  }

  /** ToInt32 subtracts a whole number of 2^32 ... */
  lemma ToInt32Wraps(x: int)
    ensures ToInt32(x) == x - Wraps(x) * Two32
  {
  }

  /** ... and so gives the same result on values 2^32 apart. */
  lemma ToInt32Periodic(x: int, k: int)
    ensures ToInt32(x + k * Two32) == ToInt32(x)
  {
    Arith.DivQuot(x + k * Two32, Two32, x / Two32 + k, x % Two32);
  }

  predicate IsInt32(h: int)
  {
    -Two31 <= h < Two31
  }

  /** One iteration of the loop body as written:
      `hash = ((hash << 5) - hash) + char; hash = hash & hash`.
      For a 32-bit `hash`, `hash << 5` is ToInt32(hash * 32); the
      subtraction and addition are exact in doubles (all magnitudes stay
      below 2^34), and `hash & hash` is ToInt32. */
  function Step(h: int, c: int): (r: int)
    requires IsInt32(h) && 0 <= c < 0x10000
    ensures IsInt32(r)
  {
    ToInt32(ToInt32(h * 32) - h + c)
  }

  /** The loop body is the polynomial step h := ToInt32(31 * h + c). */
  lemma StepIsPolynomial(h: int, c: int)
    requires IsInt32(h) && 0 <= c < 0x10000
    ensures Step(h, c) == ToInt32(31 * h + c)
  {
    var w := Wraps(h * 32);
    ToInt32Wraps(h * 32);
    assert ToInt32(h * 32) - h + c == (31 * h + c) + (-w) * Two32;
    ToInt32Periodic(31 * h + c, -w);
  }

  /** The value of `hash` after the loop has consumed `units`. */
  function Fold(units: seq<int>): (r: int)
    requires forall i :: 0 <= i < |units| ==> 0 <= units[i] < 0x10000
    ensures IsInt32(r)
  {
    if units == [] then 0 else Step(Fold(units[..|units| - 1]), units[|units| - 1])
  }

  /** The hash as an unbounded polynomial: sum of c_i * 31^(n-1-i). */
  function Poly(units: seq<int>): int
  {
    if units == [] then 0 else 31 * Poly(units[..|units| - 1]) + units[|units| - 1]
  }

  /** Reference definition: the 32-bit hash is the polynomial reduced to a
      signed 32-bit integer. */
  lemma {:induction false} FoldIsPolynomialMod(units: seq<int>)
    requires forall i :: 0 <= i < |units| ==> 0 <= units[i] < 0x10000
    ensures Fold(units) == ToInt32(Poly(units))
  {
    if units != [] {
      var init, c := units[..|units| - 1], units[|units| - 1];
      FoldIsPolynomialMod(init);
      var h, p := Fold(init), Poly(init);
      StepIsPolynomial(h, c);
      var w := Wraps(p);
      ToInt32Wraps(p);
      assert 31 * h + c == (31 * p + c) + (-31 * w) * Two32;
      ToInt32Periodic(31 * p + c, -31 * w);
    }
  }

  /** The signed 32-bit hash of a string, over its UTF-16 code units. */
  function Hash32(s: string): (r: int)
    ensures IsInt32(r)
  {
    Fold(Utf16Units(s))
  }

  function Abs(x: int): nat
  {
    if x < 0 then -x else x
  }

  /** `Math.abs(hash).toString(16)`. */
  function HashHex(s: string): string
  {
    ToRadix(Abs(Hash32(s)), 16)
  }

  predicate IsLowerHexDigit(c: char)
  {
    '0' <= c <= '9' || 'a' <= c <= 'f'
  }

  /** `generateHash`: the loop of the source, proved to compute HashHex. */
  method GenerateHash(s: string) returns (r: string)
    ensures r == HashHex(s)
  {
    var units := Utf16Units(s);
    var hash := 0;
    for i := 0 to |units|
      invariant hash == Fold(units[..i])
    {
      assert units[..i + 1][..i] == units[..i];
      hash := Step(hash, units[i]);
    }
    assert units[..|units|] == units;
    r := ToRadix(Abs(hash), 16);
  }

  /** The result is a non-empty lower-case hexadecimal string of at most
      eight digits, and it reads back as |hash|. */
  lemma HashHexShape(s: string)
    ensures 1 <= |HashHex(s)| <= 8
    ensures forall i :: 0 <= i < |HashHex(s)| ==> IsLowerHexDigit(HashHex(s)[i])
    ensures DigitsValue(HashHex(s), 16) == Abs(Hash32(s))
    ensures Abs(Hash32(s)) <= Two31
  {
    var n := Abs(Hash32(s));
    assert Pow(16, 8) == Two32 by {
      assert Pow(16, 2) == 256;
      assert Pow(16, 4) == 65536 by { assert Pow(16, 4) == 16 * (16 * Pow(16, 2)); }
      assert Pow(16, 8) == 16 * (16 * (16 * (16 * Pow(16, 4))));
    }
    ToRadixLength(n, 16, 8);
    ToRadixValue(n, 16);
    ToRadixLowerHex(n);
  }

  lemma {:induction false} ToRadixLowerHex(n: nat)
    ensures forall i :: 0 <= i < |ToRadix(n, 16)| ==> IsLowerHexDigit(ToRadix(n, 16)[i])
    decreases n
  {
    if n >= 16 {
      ToRadixLowerHex(n / 16);
    }
  }
}
