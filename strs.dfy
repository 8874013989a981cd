/** JavaScript string operations the front end relies on, over Dafny strings.
    Dafny characters are Unicode scalar values; where JavaScript looks at
    UTF-16 code units (`charCodeAt`, `length`), `Utf16Units` gives them. */
module Strs {

  import opened Wrappers

  /** `s.includes(t)`. */
  predicate Contains(s: string, t: string)
  {
    exists i :: 0 <= i <= |s| - |t| && OccursAt(s, t, i)
  }

  /** `t` occurs in `s` starting at index `i`. */
  predicate OccursAt(s: string, t: string, i: int)
  {
    0 <= i <= |s| - |t| && s[i..i + |t|] == t
  }

  /** `s.startsWith(t)`. */
  predicate StartsWith(s: string, t: string)
  {
    |t| <= |s| && s[..|t|] == t
  }

  /** `s.substring(0, n)` for a non-negative `n`. */
  function Prefix(s: string, n: nat): (r: string)
    ensures |r| == if n < |s| then n else |s|
    ensures r == s[..|r|]
  {
    if n < |s| then s[..n] else s
  }

  /** `s.substring(start, end)` for non-negative arguments: both are
      clamped to the length and swapped if out of order. */
  function Substring(s: string, start: nat, end: nat): (r: string)
    ensures |r| <= |s|
    ensures start <= end <= |s| ==> r == s[start..end]
  {
    var a := if start < |s| then start else |s|;
    var b := if end < |s| then end else |s|;
    if a <= b then s[a..b] else s[b..a]
  }

  /** `s.padEnd(n, c)` with a one-character filler. */
  function PadEnd(s: string, n: nat, c: char): (r: string)
    ensures |r| == if n < |s| then |s| else n
    ensures r[..|s|] == s
    ensures forall i :: |s| <= i < |r| ==> r[i] == c
  {
    if n <= |s| then s else s + Repeat(c, n - |s|)
  }

  /** `s.padStart(n, c)` for a one-character pad string. */
  function PadStart(s: string, n: nat, c: char): (r: string)
    ensures |r| == if n < |s| then |s| else n
    ensures r[|r| - |s|..] == s
    ensures forall i :: 0 <= i < |r| - |s| ==> r[i] == c
  {
    if n <= |s| then s else Repeat(c, n - |s|) + s
  }

  /** `s.replace(/c/g, '')`: every occurrence of `c` removed, the other
      characters kept in order. */
  function Without(s: string, c: char): (r: string)
    ensures |r| <= |s|
    ensures forall i :: 0 <= i < |r| ==> r[i] != c
    ensures (forall i :: 0 <= i < |s| ==> s[i] != c) ==> r == s
  {
    if s == [] then ""
    else if s[0] == c then Without(s[1..], c)
    else [s[0]] + Without(s[1..], c)
  }

  function Repeat(c: char, n: nat): (r: string)
    ensures |r| == n
    ensures forall i :: 0 <= i < n ==> r[i] == c
  {
    if n == 0 then "" else [c] + Repeat(c, n - 1)
  }

  // ---------------------------------------------------------------------
  // Number.prototype.toString(radix) and parseInt(s, radix) on naturals
  // ---------------------------------------------------------------------

  /** The digit character JavaScript prints for `d` (lower-case letters). */
  function DigitChar(d: nat): (c: char)
    requires d < 36
  {
    if d < 10 then ('0' as int + d) as char else ('a' as int + d - 10) as char
  }

  /** The value of a digit character in base `radix`, if it is one
      (letters of either case, as `parseInt` accepts). */
  function DigitValue(c: char, radix: nat): (r: Option<nat>)
    requires 2 <= radix <= 36
    ensures r.Some? ==> r.value < radix
  {
    var v :=
      if '0' <= c <= '9' then c as int - '0' as int
      else if 'a' <= c <= 'z' then c as int - 'a' as int + 10
      else if 'A' <= c <= 'Z' then c as int - 'A' as int + 10
      else 36;
    if v < radix then Some(v) else None
  }

  /** `n.toString(radix)` for a natural `n`. */
  function ToRadix(n: nat, radix: nat): (r: string)
    requires 2 <= radix <= 36
    ensures |r| >= 1
    decreases n
  {
    if n < radix then [DigitChar(n)]
    else ToRadix(n / radix, radix) + [DigitChar(n % radix)]
  }

  /** Every character `toString(radix)` prints is a digit of that radix. */
  lemma {:induction false} ToRadixDigits(n: nat, radix: nat)
    requires 2 <= radix <= 36
    ensures forall i :: 0 <= i < |ToRadix(n, radix)| ==> DigitValue(ToRadix(n, radix)[i], radix).Some?
    decreases n
  {
    if n < radix {
      DigitCharValue(n, radix);
    } else {
      ToRadixDigits(n / radix, radix);
      DigitCharValue(n % radix, radix);
    }
  }

  /** The value of a string of digits in base `radix` (a non-digit
      counts as 0; callers only pass digits). */
  function DigitsValue(s: string, radix: nat): nat
    requires 2 <= radix <= 36
  {
    if s == [] then 0
    else
      var d := match DigitValue(s[|s| - 1], radix) case Some(v) => v case None => 0;
      DigitsValue(s[..|s| - 1], radix) * radix + d
  }

  lemma DigitCharValue(d: nat, radix: nat)
    requires 2 <= radix <= 36 && d < radix
    ensures DigitValue(DigitChar(d), radix) == Some(d)
  {
  }

  /** Reading back what `toString(radix)` printed gives the number. */
  lemma {:induction false} ToRadixValue(n: nat, radix: nat)
    requires 2 <= radix <= 36
    ensures DigitsValue(ToRadix(n, radix), radix) == n
    decreases n
  {
    if n < radix {
      DigitCharValue(n, radix);
    } else {
      var q, d := n / radix, n % radix;
      DivMod(n, radix);
      assert ToRadix(n, radix) == ToRadix(q, radix) + [DigitChar(d)];
      ToRadixValue(q, radix);
      DigitsValueSnoc(ToRadix(q, radix), d, radix);
    }
  }

  lemma DigitsValueSnoc(s: string, d: nat, radix: nat)
    requires 2 <= radix <= 36 && d < radix
    ensures DigitsValue(s + [DigitChar(d)], radix) == DigitsValue(s, radix) * radix + d
  {
    DigitCharValue(d, radix);
    assert (s + [DigitChar(d)])[..|s|] == s;
  }

  lemma DivMod(n: nat, radix: nat)
    requires radix > 0
    ensures (n / radix) * radix + n % radix == n
    ensures 0 <= n % radix < radix
    ensures radix >= 2 && n >= radix ==> 1 <= n / radix < n
  {
  }

  /** Below `radix * p`, the quotient by `radix` is below `p`. */
  lemma DivBelow(n: nat, radix: nat, p: nat)
    requires radix > 0 && n < radix * p
    ensures n / radix < p
  {
    DivMod(n, radix);
    MulLessCancel(n / radix, p, radix);
  }

  lemma MulLessCancel(q: nat, p: nat, r: nat)
    requires r > 0 && q * r < p * r
    ensures q < p
  {
  }

  function Pow(b: nat, k: nat): nat
  {
    if k == 0 then 1 else b * Pow(b, k - 1)
  }

  /** A number below `radix^k` prints in at most `k` digits. */
  lemma {:induction false} ToRadixLength(n: nat, radix: nat, k: nat)
    requires 2 <= radix <= 36 && 1 <= k && n < Pow(radix, k)
    ensures |ToRadix(n, radix)| <= k
    decreases k
  {
    if n >= radix {
      assert Pow(radix, 1) == radix;
      assert k > 1;
      assert Pow(radix, k) == radix * Pow(radix, k - 1);
      DivBelow(n, radix, Pow(radix, k - 1));
      DivMod(n, radix);
      assert ToRadix(n, radix) == ToRadix(n / radix, radix) + [DigitChar(n % radix)];
      ToRadixLength(n / radix, radix, k - 1);
    }
  }

  /** The longest prefix of `s` made of base-`radix` digits. */
  function DigitPrefix(s: string, radix: nat): (r: string)
    requires 2 <= radix <= 36
    ensures |r| <= |s| && r == s[..|r|]
    ensures forall i :: 0 <= i < |r| ==> DigitValue(r[i], radix).Some?
    ensures |r| < |s| ==> DigitValue(s[|r|], radix).None?
  {
    if s == [] || DigitValue(s[0], radix).None? then ""
    else [s[0]] + DigitPrefix(s[1..], radix)
  }

  /** `parseInt(s, 16)`: an optional sign, an optional `0x`/`0X` prefix,
      then the longest run of hexadecimal digits; `None` stands for NaN.
      Leading white space is not skipped (see the README). */
  function ParseHexInt(s: string): (r: Option<int>)
  {
    var neg := |s| > 0 && s[0] == '-';
    var unsigned := if |s| > 0 && (s[0] == '-' || s[0] == '+') then s[1..] else s;
    var body := if |unsigned| >= 2 && unsigned[0] == '0' && (unsigned[1] == 'x' || unsigned[1] == 'X')
                then unsigned[2..] else unsigned;
    var digits := DigitPrefix(body, 16);
    var v: int := if digits == "" then 0 else DigitsValue(digits, 16);
    if digits == "" then None
    else if neg then Some(-v)
    else Some(v)
  }

  /** `String(n)` for an integer below 10^21 in magnitude (larger numbers
      switch to exponent notation in JavaScript). */
  function Decimal(n: int): (r: string)
    ensures |r| >= 1
  {
    if n < 0 then "-" + ToRadix(-n, 10) else ToRadix(n, 10)
  }

  // ---------------------------------------------------------------------
  // UTF-16 code units
  // ---------------------------------------------------------------------

  /** The UTF-16 code units of one character (a surrogate pair above U+FFFF). */
  function CharUnits(c: char): (r: seq<int>)
    ensures 1 <= |r| <= 2
    ensures forall i :: 0 <= i < |r| ==> 0 <= r[i] < 0x10000
  {
    var cp := c as int;
    if cp < 0x10000 then [cp]
    else [0xD800 + (cp - 0x10000) / 0x400, 0xDC00 + (cp - 0x10000) % 0x400]
  }

  /** What `s.charCodeAt(i)` yields for i = 0 .. s.length - 1. */
  function Utf16Units(s: string): (r: seq<int>)
    ensures |r| >= |s|
    ensures forall i :: 0 <= i < |r| ==> 0 <= r[i] < 0x10000
  {
    if s == [] then [] else Utf16Units(s[..|s| - 1]) + CharUnits(s[|s| - 1])
  }

  /** Below U+10000 every character is one code unit equal to its code point. */
  lemma {:induction false} Utf16UnitsBmp(s: string)
    requires forall i :: 0 <= i < |s| ==> (s[i] as int) < 0x10000
    ensures |Utf16Units(s)| == |s|
    ensures forall i :: 0 <= i < |s| ==> Utf16Units(s)[i] == s[i] as int
  {
    if s != [] {
      Utf16UnitsBmp(s[..|s| - 1]);
    }
  }

  lemma {:induction false} Utf16UnitsAppend(s: string, t: string)
    ensures Utf16Units(s + t) == Utf16Units(s) + Utf16Units(t)
    decreases |t|
  {
    if t == [] {
      assert s + t == s;
    } else {
      assert (s + t)[..|s + t| - 1] == s + t[..|t| - 1];
      Utf16UnitsAppend(s, t[..|t| - 1]);
    }
  }

  // ---------------------------------------------------------------------
  // JSON.stringify of a string
  // ---------------------------------------------------------------------

  function HexDigit4(n: nat): (r: string)
    requires n < 0x10000
    ensures |r| == 4
  {
    [DigitChar(n / 4096), DigitChar(n / 256 % 16), DigitChar(n / 16 % 16), DigitChar(n % 16)]
  }

  /** The escape JSON.stringify writes for one character. */
  function QuoteChar(c: char): string
  {
    if c == '"' then "\\\""
    else if c == '\\' then "\\\\"
    else if c == '\n' then "\\n"
    else if c == '\r' then "\\r"
    else if c == '\t' then "\\t"
    else if c as int == 8 then "\\b"
    else if c as int == 12 then "\\f"
    else if (c as int) < 0x20 then "\\u" + HexDigit4(c as int)
    else [c]
  }

  function QuoteBody(s: string): string
  {
    if s == [] then "" else QuoteBody(s[..|s| - 1]) + QuoteChar(s[|s| - 1])
  }

  /** `JSON.stringify(s)` for a string `s`. */
  function JsonQuote(s: string): (r: string)
    ensures |r| >= 2 && r[0] == '"' && r[|r| - 1] == '"'
  {
    "\"" + QuoteBody(s) + "\""
  }
}
