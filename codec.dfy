/** The "mock encryption" codec of both patient-record services:
      encryptData(x) = btoa(unescape(encodeURIComponent(JSON.stringify(x))))
      decryptData(t) = JSON.parse(decodeURIComponent(escape(atob(t))))
    `unescape(encodeURIComponent(s))` is the UTF-8 encoding of `s` (RFC 3629)
    written one byte per character, and `decodeURIComponent(escape(b))` is
    the strict UTF-8 decoding of such a byte string. `btoa` is Base64 with
    padding (section 4 of RFC 4648); `atob` is the "forgiving-base64 decode"
    of the WHATWG Infra standard. The JSON step is outside this module: the
    codec works on the JSON text. */
module Codec {

  import opened Wrappers
  import Arith

  type byte = x: int | 0 <= x < 256

  // =====================================================================
  // UTF-8
  // =====================================================================

  /** The UTF-8 bytes of one Unicode scalar value. */
  function EncodeChar(c: char): (r: seq<byte>)
    ensures 1 <= |r| <= 4
  {
    var cp := c as int;
    if cp < 0x80 then [cp]
    else if cp < 0x800 then [0xC0 + cp / 64, 0x80 + cp % 64]
    else if cp < 0x10000 then [0xE0 + cp / 4096, 0x80 + cp / 64 % 64, 0x80 + cp % 64]
    else [0xF0 + cp / 262144, 0x80 + cp / 4096 % 64, 0x80 + cp / 64 % 64, 0x80 + cp % 64]
  }

  /** `unescape(encodeURIComponent(s))`, as bytes. */
  function Utf8Encode(s: string): seq<byte>
  {
    if s == [] then [] else EncodeChar(s[0]) + Utf8Encode(s[1..])
  }

  predicate IsCont(b: byte)
  {
    0x80 <= b < 0xC0
  }

  predicate IsScalar(cp: int)
  {
    0 <= cp < 0xD800 || 0xE000 <= cp < 0x11_0000
  }

  /** The first code point of `b` and the number of bytes it takes, if `b`
      starts with a well-formed UTF-8 sequence: no overlong form, no
      surrogate, nothing above U+10FFFF. */
  function DecodeFirst(b: seq<byte>): (r: Option<(char, nat)>)
    ensures r.Some? ==> 1 <= r.value.1 <= |b|
  {
    if |b| == 0 then None
    else if b[0] < 0x80 then Some((b[0] as char, 1))
    else if b[0] < 0xC0 then None
    else if b[0] < 0xE0 then
      if |b| < 2 || !IsCont(b[1]) then None
      else
        var cp := (b[0] as int - 0xC0) * 64 + (b[1] as int - 0x80);
        if cp < 0x80 then None else Some((cp as char, 2))
    else if b[0] < 0xF0 then
      if |b| < 3 || !IsCont(b[1]) || !IsCont(b[2]) then None
      else
        var cp := (b[0] as int - 0xE0) * 4096 + (b[1] as int - 0x80) * 64 + (b[2] as int - 0x80);
        if cp < 0x800 || 0xD800 <= cp < 0xE000 then None else Some((cp as char, 3))
    else if b[0] < 0xF8 then
      if |b| < 4 || !IsCont(b[1]) || !IsCont(b[2]) || !IsCont(b[3]) then None
      else
        var cp := (b[0] as int - 0xF0) * 262144 + (b[1] as int - 0x80) * 4096 + (b[2] as int - 0x80) * 64 + (b[3] as int - 0x80);
        if cp < 0x10000 || cp >= 0x11_0000 then None else Some((cp as char, 4))
    else None
  }

  /** `decodeURIComponent(escape(b))`: None where it throws URIError. */
  function Utf8Decode(b: seq<byte>): Option<string>
    decreases |b|
  {
    if b == [] then Some("")
    else
      match DecodeFirst(b)
      case None => None
      case Some((c, k)) =>
        match Utf8Decode(b[k..])
        case None => None
        case Some(rest) => Some([c] + rest)
  }

  /** The sextet arithmetic of the encoder: the parts it writes join
      back to the code point. */
  lemma JoinParts(cp: int)
    requires 0 <= cp < 0x11_0000
    ensures cp / 64 * 64 + cp % 64 == cp
    ensures cp / 4096 * 4096 + cp / 64 % 64 * 64 + cp % 64 == cp
    ensures cp / 262144 * 262144 + cp / 4096 % 64 * 4096 + cp / 64 % 64 * 64 + cp % 64 == cp
  {
    var q1, r0 := cp / 64, cp % 64;
    var q2, r1 := q1 / 64, q1 % 64;
    var q3, r2 := q2 / 64, q2 % 64;
    Arith.DivQuot(cp, 4096, q2, r1 * 64 + r0);
    Arith.DivQuot(cp, 262144, q3, r2 * 4096 + r1 * 64 + r0);
  }

  /** ... and, conversely, splitting joined parts gives the parts. */
  lemma SplitParts(x0: int, x1: int, x2: int, x3: int)
    requires 0 <= x0 && 0 <= x1 < 64 && 0 <= x2 < 64 && 0 <= x3 < 64
    ensures (x0 * 64 + x1) / 64 == x0 && (x0 * 64 + x1) % 64 == x1
    ensures (x0 * 4096 + x1 * 64 + x2) / 4096 == x0
    ensures (x0 * 4096 + x1 * 64 + x2) / 64 % 64 == x1
    ensures (x0 * 4096 + x1 * 64 + x2) % 64 == x2
    ensures (x0 * 262144 + x1 * 4096 + x2 * 64 + x3) / 262144 == x0
    ensures (x0 * 262144 + x1 * 4096 + x2 * 64 + x3) / 4096 % 64 == x1
    ensures (x0 * 262144 + x1 * 4096 + x2 * 64 + x3) / 64 % 64 == x2
    ensures (x0 * 262144 + x1 * 4096 + x2 * 64 + x3) % 64 == x3
  {
    var c2 := x0 * 64 + x1;
    var c3 := x0 * 4096 + x1 * 64 + x2;
    var c4 := x0 * 262144 + x1 * 4096 + x2 * 64 + x3;
    Arith.DivQuot(c2, 64, x0, x1);
    Arith.DivQuot(c3, 64, c2, x2);
    Arith.DivQuot(c3, 4096, x0, x1 * 64 + x2);
    Arith.DivQuot(c4, 64, c3, x3);
    Arith.DivQuot(c4, 4096, c2, x2 * 64 + x3);
    Arith.DivQuot(c4, 262144, x0, x1 * 4096 + x2 * 64 + x3);
  }

  /** Decoding the encoding of a character, in front of anything. */
  lemma DecodeEncodedChar(c: char, rest: seq<byte>)
    ensures DecodeFirst(EncodeChar(c) + rest) == Some((c, |EncodeChar(c)|))
  {
    var cp := c as int;
    var b := EncodeChar(c) + rest;
    JoinParts(cp);
    if cp < 0x80 {
    } else if cp < 0x800 {
      assert b[0] == 0xC0 + cp / 64 && b[1] == 0x80 + cp % 64;
    } else if cp < 0x10000 {
      assert b[0] == 0xE0 + cp / 4096 && b[1] == 0x80 + cp / 64 % 64 && b[2] == 0x80 + cp % 64;
    } else {
      assert b[0] == 0xF0 + cp / 262144 && b[1] == 0x80 + cp / 4096 % 64;
      assert b[2] == 0x80 + cp / 64 % 64 && b[3] == 0x80 + cp % 64;
    }
  }

  /** UTF-8 round trip: decoding what was encoded gives the string back. */
  lemma {:induction false} Utf8RoundTrip(s: string)
    ensures Utf8Decode(Utf8Encode(s)) == Some(s)
  {
    if s != [] {
      var e := EncodeChar(s[0]);
      var tail := Utf8Encode(s[1..]);
      DecodeEncodedChar(s[0], tail);
      assert (e + tail)[|e|..] == tail;
      Utf8RoundTrip(s[1..]);
      assert [s[0]] + s[1..] == s;
    }
  }

  /** A sequence that decodes is the encoding of what it decodes to. */
  lemma DecodedCharEncodes(b: seq<byte>)
    requires DecodeFirst(b).Some?
    ensures b[..DecodeFirst(b).value.1] == EncodeChar(DecodeFirst(b).value.0)
  {
    if b[0] >= 0x80 {
      if b[0] < 0xE0 {
        TwoBytes(b[0], b[1]);
        assert b[..2] == [b[0], b[1]];
      } else if b[0] < 0xF0 {
        ThreeBytes(b[0], b[1], b[2]);
        assert b[..3] == [b[0], b[1], b[2]];
      } else {
        FourBytes(b[0], b[1], b[2], b[3]);
        assert b[..4] == [b[0], b[1], b[2], b[3]];
      }
    }
  }

  lemma TwoBytes(b0: byte, b1: byte)
    requires 0xC0 <= b0 < 0xE0 && IsCont(b1)
    requires (b0 - 0xC0) * 64 + (b1 - 0x80) >= 0x80
    ensures EncodeChar(((b0 - 0xC0) * 64 + (b1 - 0x80)) as char) == [b0, b1]
  {
    SplitParts(b0 - 0xC0, b1 - 0x80, 0, 0);
  }

  lemma ThreeBytes(b0: byte, b1: byte, b2: byte)
    requires 0xE0 <= b0 < 0xF0 && IsCont(b1) && IsCont(b2)
    requires var cp := (b0 - 0xE0) * 4096 + (b1 - 0x80) * 64 + (b2 - 0x80);
             0x800 <= cp && !(0xD800 <= cp < 0xE000)
    ensures EncodeChar(((b0 - 0xE0) * 4096 + (b1 - 0x80) * 64 + (b2 - 0x80)) as char) == [b0, b1, b2]
  {
    SplitParts(b0 - 0xE0, b1 - 0x80, b2 - 0x80, 0);
  }

  lemma FourBytes(b0: byte, b1: byte, b2: byte, b3: byte)
    requires 0xF0 <= b0 < 0xF8 && IsCont(b1) && IsCont(b2) && IsCont(b3)
    requires var cp := (b0 - 0xF0) * 262144 + (b1 - 0x80) * 4096 + (b2 - 0x80) * 64 + (b3 - 0x80);
             0x10000 <= cp < 0x11_0000
    ensures EncodeChar(((b0 - 0xF0) * 262144 + (b1 - 0x80) * 4096 + (b2 - 0x80) * 64 + (b3 - 0x80)) as char)
            == [b0, b1, b2, b3]
  {
    SplitParts(b0 - 0xF0, b1 - 0x80, b2 - 0x80, b3 - 0x80);
  }

  /** The converse of the round trip: strict decoding is injective, and what
      it accepts is exactly the image of the encoder. */
  lemma {:induction false} Utf8DecodeExact(b: seq<byte>, s: string)
    requires Utf8Decode(b) == Some(s)
    ensures Utf8Encode(s) == b
    decreases |b|
  {
    if b != [] {
      var (c, k) := DecodeFirst(b).value;
      var rest := Utf8Decode(b[k..]).value;
      assert s == [c] + rest;
      DecodedCharEncodes(b);
      Utf8DecodeExact(b[k..], rest);
      assert s[1..] == rest;
      assert b == b[..k] + b[k..];
    }
  }

  // =====================================================================
  // Base64
  // =====================================================================

  /** The Base64 alphabet of section 4 of RFC 4648. */
  function B64Char(v: nat): (c: char)
    requires v < 64
  {
    if v < 26 then ('A' as int + v) as char
    else if v < 52 then ('a' as int + v - 26) as char
    else if v < 62 then ('0' as int + v - 52) as char
    else if v == 62 then '+'
    else '/'
  }

  function B64Value(c: char): (r: Option<nat>)
    ensures r.Some? ==> r.value < 64
  {
    if 'A' <= c <= 'Z' then Some(c as int - 'A' as int)
    else if 'a' <= c <= 'z' then Some(c as int - 'a' as int + 26)
    else if '0' <= c <= '9' then Some(c as int - '0' as int + 52)
    else if c == '+' then Some(62)
    else if c == '/' then Some(63)
    else None
  }

  lemma B64CharValue(v: nat)
    requires v < 64
    ensures B64Value(B64Char(v)) == Some(v)
  {
  }

  /** Membership in the alphabet. */
  predicate IsB64(c: char)
  {
    B64Value(c).Some?
  }

  /** The six-bit value of a character; the decoder only meets alphabet
      characters here, anything else reads as 0. */
  function Sextet(c: char): (r: nat)
    ensures r < 64
  {
    match B64Value(c)
    case Some(v) => v
    case None => 0
  }

  /** Three bytes as four characters. */
  function Group3(b0: byte, b1: byte, b2: byte): string
  {
    [B64Char(b0 / 4), B64Char(b0 % 4 * 16 + b1 / 16), B64Char(b1 % 16 * 4 + b2 / 64), B64Char(b2 % 64)]
  }

  /** Two trailing bytes as three characters (the low bits are zero). */
  function Group2(b0: byte, b1: byte): string
  {
    [B64Char(b0 / 4), B64Char(b0 % 4 * 16 + b1 / 16), B64Char(b1 % 16 * 4)]
  }

  /** One trailing byte as two characters. */
  function Group1(b0: byte): string
  {
    [B64Char(b0 / 4), B64Char(b0 % 4 * 16)]
  }

  /** The Base64 characters of `b`, without padding. */
  function Unpadded(b: seq<byte>): (r: string)
    ensures |r| == 4 * (|b| / 3) + (if |b| % 3 == 0 then 0 else |b| % 3 + 1)
    decreases |b|
  {
    if |b| == 0 then ""
    else if |b| == 1 then Group1(b[0])
    else if |b| == 2 then Group2(b[0], b[1])
    else
      Arith.DropMultiple(|b|, 3, 1);
      Group3(b[0], b[1], b[2]) + Unpadded(b[3..])
  }

  function Padding(n: nat): (r: string)
    ensures |r| == (3 - n % 3) % 3
  {
    if n % 3 == 1 then "==" else if n % 3 == 2 then "=" else ""
  }

  /** `btoa`: Base64 with '=' padding to a multiple of four characters. */
  function Base64Encode(b: seq<byte>): string
  {
    Unpadded(b) + Padding(|b|)
  }

  /** ASCII white space as the Infra standard defines it. */
  predicate IsAsciiWhitespace(c: char)
  {
    c == '\t' || c == '\n' || c as int == 12 || c == '\r' || c == ' '
  }

  function RemoveWhitespace(s: string): (r: string)
    ensures |r| <= |s|
    ensures forall i :: 0 <= i < |r| ==> !IsAsciiWhitespace(r[i])
  {
    if s == [] then ""
    else if IsAsciiWhitespace(s[0]) then RemoveWhitespace(s[1..])
    else [s[0]] + RemoveWhitespace(s[1..])
  }

  predicate AllB64(s: string)
  {
    forall i :: 0 <= i < |s| ==> IsB64(s[i])
  }

  /** Decodes complete and trailing groups; leftover bits of a partial
      group are discarded, as the forgiving decoder does. A lone trailing
      character, which `atob` refuses before getting here, yields nothing. */
  function DecodeGroups(s: string): seq<byte>
    decreases |s|
  {
    if |s| < 2 then []
    else
      var v0, v1 := Sextet(s[0]), Sextet(s[1]);
      if |s| == 2 then [v0 * 4 + v1 / 16]
      else
        var v2 := Sextet(s[2]);
        if |s| == 3 then [v0 * 4 + v1 / 16, v1 % 16 * 16 + v2 / 4]
        else
          var v3 := Sextet(s[3]);
          [v0 * 4 + v1 / 16, v1 % 16 * 16 + v2 / 4, v2 % 4 * 64 + v3] + DecodeGroups(s[4..])
  }

  /** The string `atob` decodes once white space and padding are gone. */
  function StripPadding(d: string): string
  {
    if |d| % 4 == 0 && |d| >= 2 && d[|d| - 2..] == "==" then d[..|d| - 2]
    else if |d| % 4 == 0 && |d| >= 1 && d[|d| - 1] == '=' then d[..|d| - 1]
    else d
  }

  /** `atob`, the forgiving-base64 decode: drop ASCII white space; if the
      length is a multiple of four, drop one or two trailing '='; fail on a
      remainder of one or on any character outside the alphabet. */
  function Base64Decode(t: string): Option<seq<byte>>
  {
    var d := StripPadding(RemoveWhitespace(t));
    if |d| % 4 == 1 || !AllB64(d) then None
    else Some(DecodeGroups(d))
  }

  lemma Group3IsB64(b0: byte, b1: byte, b2: byte)
    ensures AllB64(Group3(b0, b1, b2))
  {
    B64CharValue(b0 / 4); B64CharValue(b0 % 4 * 16 + b1 / 16);
    B64CharValue(b1 % 16 * 4 + b2 / 64); B64CharValue(b2 % 64);
  }

  lemma AllB64Append(s: string, t: string)
    requires AllB64(s) && AllB64(t)
    ensures AllB64(s + t)
  {
    forall i | 0 <= i < |s + t| ensures IsB64((s + t)[i]) {
      if i >= |s| { assert (s + t)[i] == t[i - |s|]; }
    }
  }

  lemma {:induction false} UnpaddedIsB64(b: seq<byte>)
    ensures AllB64(Unpadded(b))
    decreases |b|
  {
    if |b| >= 3 {
      UnpaddedIsB64(b[3..]);
      Group3IsB64(b[0], b[1], b[2]);
      AllB64Append(Group3(b[0], b[1], b[2]), Unpadded(b[3..]));
    } else if |b| == 2 {
      B64CharValue(b[0] / 4); B64CharValue(b[0] % 4 * 16 + b[1] / 16); B64CharValue(b[1] % 16 * 4);
    } else if |b| == 1 {
      B64CharValue(b[0] / 4); B64CharValue(b[0] % 4 * 16);
    }
  }

  /** The arithmetic of one full group: splitting three bytes into four
      sextets and joining them again is the identity. */
  lemma GroupArith(b0: int, b1: int, b2: int)
    requires 0 <= b0 < 256 && 0 <= b1 < 256 && 0 <= b2 < 256
    ensures (b0 / 4) * 4 + (b0 % 4 * 16 + b1 / 16) / 16 == b0
    ensures (b0 % 4 * 16 + b1 / 16) % 16 * 16 + (b1 % 16 * 4 + b2 / 64) / 4 == b1
    ensures (b1 % 16 * 4 + b2 / 64) % 4 * 64 + b2 % 64 == b2
  {
  }

  lemma DecodeGroup3(b0: byte, b1: byte, b2: byte, rest: string)
    ensures DecodeGroups(Group3(b0, b1, b2) + rest) == [b0, b1, b2] + DecodeGroups(rest)
  {
    var g := Group3(b0, b1, b2);
    B64CharValue(b0 / 4); B64CharValue(b0 % 4 * 16 + b1 / 16);
    B64CharValue(b1 % 16 * 4 + b2 / 64); B64CharValue(b2 % 64);
    GroupArith(b0, b1, b2);
    assert (g + rest)[..4] == g && (g + rest)[4..] == rest;
  }

  lemma DecodeGroup2(b0: byte, b1: byte)
    ensures DecodeGroups(Group2(b0, b1)) == [b0, b1]
  {
    B64CharValue(b0 / 4); B64CharValue(b0 % 4 * 16 + b1 / 16); B64CharValue(b1 % 16 * 4);
    GroupArith(b0, b1, 0);
  }

  lemma DecodeGroup1(b0: byte)
    ensures DecodeGroups(Group1(b0)) == [b0]
  {
    B64CharValue(b0 / 4); B64CharValue(b0 % 4 * 16);
  }

  lemma {:induction false} DecodeUnpadded(b: seq<byte>)
    ensures DecodeGroups(Unpadded(b)) == b
    decreases |b|
  {
    if |b| == 1 {
      DecodeGroup1(b[0]);
    } else if |b| == 2 {
      DecodeGroup2(b[0], b[1]);
    } else if |b| >= 3 {
      var head, tail := [b[0], b[1], b[2]], b[3..];
      assert b == head + tail;
      DecodeUnpadded(tail);
      UnpaddedCons(b);
      DecodeGroup3(b[0], b[1], b[2], Unpadded(tail));
    }
  }

  lemma UnpaddedCons(b: seq<byte>)
    requires |b| >= 3
    ensures Unpadded(b) == Group3(b[0], b[1], b[2]) + Unpadded(b[3..])
  {
  }

  lemma {:induction false} NoWhitespace(s: string)
    requires forall i :: 0 <= i < |s| ==> !IsAsciiWhitespace(s[i])
    ensures RemoveWhitespace(s) == s
  {
    if s != [] {
      NoWhitespace(s[1..]);
      assert [s[0]] + s[1..] == s;
    }
  }

  /** `btoa` writes alphabet characters followed by its padding. */
  lemma EncodeShape(b: seq<byte>)
    ensures |Base64Encode(b)| % 4 == 0
    ensures forall i :: 0 <= i < |Base64Encode(b)| ==> IsB64(Base64Encode(b)[i]) || Base64Encode(b)[i] == '='
  {
    var u := Unpadded(b);
    var e := Base64Encode(b);
    UnpaddedIsB64(b);
    forall i | 0 <= i < |e| ensures IsB64(e[i]) || e[i] == '=' {
      if i < |u| { assert e[i] == u[i]; }
    }
  }

  /** Removing the padding `btoa` wrote gives its unpadded characters. */
  lemma StripPaddingOfEncode(b: seq<byte>)
    ensures StripPadding(Base64Encode(b)) == Unpadded(b)
  {
    var u := Unpadded(b);
    var e := Base64Encode(b);
    EncodeShape(b);
    UnpaddedIsB64(b);
    if |b| % 3 == 1 {
      assert e[|e| - 2..] == "==";
      assert e[..|e| - 2] == u;
    } else if |b| % 3 == 2 {
      assert e[|e| - 1] == '=';
      assert e[|e| - 2..] == [u[|u| - 1], '='];
      assert IsB64(u[|u| - 1]);
      assert e[..|e| - 1] == u;
    } else {
      assert e == u;
      if |e| > 0 { assert IsB64(e[|e| - 1]); }
    }
  }

  /** Base64 round trip: `atob(btoa(b)) == b` for every byte string. */
  lemma Base64RoundTrip(b: seq<byte>)
    ensures Base64Decode(Base64Encode(b)) == Some(b)
  {
    EncodeShape(b);
    assert forall i :: 0 <= i < |Base64Encode(b)| ==> !IsAsciiWhitespace(Base64Encode(b)[i]);
    NoWhitespace(Base64Encode(b));
    StripPaddingOfEncode(b);
    UnpaddedIsB64(b);
    UnpaddedRemainder(b);
    DecodeUnpadded(b);
  }

  /** The unpadded text never leaves a single character over. */
  lemma UnpaddedRemainder(b: seq<byte>)
    ensures |Unpadded(b)| % 4 == (if |b| % 3 == 0 then 0 else |b| % 3 + 1)
  {
    Arith.DivQuot(|Unpadded(b)|, 4, |b| / 3, if |b| % 3 == 0 then 0 else |b| % 3 + 1);
  }

  // =====================================================================
  // encryptData / decryptData
  // =====================================================================

  /** Why decryptData threw (its message is the same in every case). */
  datatype CodecError = MalformedBase64 | MalformedUtf8 | MalformedJson

  const DecryptFailedMessage: string := "数据解密失败"

  /** `encryptData` on the JSON text of its argument. */
  function EncryptData(json: string): string
  {
    Base64Encode(Utf8Encode(json))
  }

  /** `decryptData`: the decoded JSON text, or the reason it throws 'data
      decryption failed'. `parses(json)` says whether `JSON.parse(json)`
      returns; the parsed value itself is not modelled, so a success
      carries the text that parsed. */
  function DecryptData(text: string, parses: string -> bool): Result<string, CodecError>
  {
    match Base64Decode(text)
    case None => Err(MalformedBase64)
    case Some(bytes) =>
      match Utf8Decode(bytes)
      case None => Err(MalformedUtf8)
      case Some(json) => if parses(json) then Ok(json) else Err(MalformedJson)
  }

  /** decryptData(encryptData(x)) == x for any `x` whose JSON text parses,
      as the text `JSON.stringify` writes does. */
  lemma DecryptEncrypt(json: string, parses: string -> bool)
    requires parses(json)
    ensures DecryptData(EncryptData(json), parses) == Ok(json)
  {
    Base64RoundTrip(Utf8Encode(json));
    Utf8RoundTrip(json);
  }

  /** Text that is not JSON survives the two decodings and is then
      rejected by the parse. */
  lemma DecryptRejectsNonJson(json: string, parses: string -> bool)
    requires !parses(json)
    ensures DecryptData(EncryptData(json), parses) == Err(MalformedJson)
  {
    Base64RoundTrip(Utf8Encode(json));
    Utf8RoundTrip(json);
  }

  /** Every successful decryption undoes an encryption of the same bytes:
      the decoded text re-encodes to what `atob` produced, and it parses. */
  lemma DecryptSound(text: string, json: string, parses: string -> bool)
    requires DecryptData(text, parses) == Ok(json)
    ensures Base64Decode(text) == Some(Utf8Encode(json)) && parses(json)
  {
    Utf8DecodeExact(Base64Decode(text).value, json);
  }

  /** A length of one modulo four is rejected by `atob`. */
  lemma DecryptRejectsShort(parses: string -> bool)
    ensures DecryptData("A", parses) == Err(MalformedBase64)
  {
    assert RemoveWhitespace("A") == "A";
  }

  /** A byte 0xFF is not UTF-8: `atob` succeeds and the decoding throws. */
  lemma DecryptRejectsBadUtf8(parses: string -> bool)
    ensures DecryptData("/w==", parses) == Err(MalformedUtf8)
  {
    NoWhitespace("/w==");
    assert "/w=="[2..] == "==" && "/w=="[..2] == "/w";
    assert AllB64("/w");
    assert DecodeGroups("/w") == [255];
  }

  /** A record without `encryptedData` reaches `atob(undefined)`, which
      reads the nine characters "undefined" and throws. */
  lemma DecryptRejectsUndefined(parses: string -> bool)
    ensures DecryptData(Render(Absent), parses) == Err(MalformedBase64)
  {
    var u := "undefined";
    LettersOnly(u);
    RemainderOneRejected(u, parses);
  }

  lemma LettersOnly(u: string)
    requires u == "undefined"
    ensures RemoveWhitespace(u) == u && |u| == 9
  {
    assert forall i :: 0 <= i < |u| ==> u[i] in "abcdefghijklmnopqrstuvwxyz";
    NoWhitespace(u);
  }

  /** A text with four characters per group and one left over, and neither
      white space nor padding to strip, cannot be Base64. */
  lemma RemainderOneRejected(t: string, parses: string -> bool)
    requires RemoveWhitespace(t) == t && |t| % 4 == 1
    ensures DecryptData(t, parses) == Err(MalformedBase64)
  {
    assert StripPadding(t) == t;
  }
}
