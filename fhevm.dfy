/** The mock FHE client of frontend/utils/fhevm.js: a 32-byte ciphertext
    whose first four bytes carry the value XOR-ed into filler bytes, a
    64-byte proof, both printed as "0x" + lower-case hex, the format
    validator and the mock decryption. The clock and the pseudo-random
    filler bytes are parameters. */
module Fhevm {

  import opened Wrappers
  import opened Strs
  import opened Hash
  import Codec
  import Arith

  type byte = Codec.byte

  const MaxUint32: int := 4294967295
  const Uint32RangeMessage: string := "值超出 uint32 范围"
  const GlucoseRangeMessage: string := "血糖值必须在 20-600 mg/dL 范围内"
  const NotSimulatedMessage: string := "只能解密模拟数据"

  /** `'0x' + '00'.repeat(32)`. */
  const ZeroPublicKey: string := "0x" + Repeat('0', 64)

  /** The object mockEncryptUint32 returns (and the other functions
      inspect): `data` and `proof` may be missing, and a missing
      `originalValue` is None. */
  datatype Ciphertext = Ciphertext(data: Field, proof: Field, isSimulated: bool, originalValue: Option<int>, timestamp: int)

  /** The two `Date.now()` readings of one encryption: the one the seed is
      taken from and the one stored as `timestamp`. */
  datatype Stamp = Stamp(seedTime: int, timestamp: int)

  /** The filler bytes of the ciphertext and of the proof as functions of
      the seed and the byte index. The source computes them in doubles
      whose products exceed 2^53. */
  datatype Entropy = Entropy(data: (int, nat) -> byte, proof: (int, nat) -> byte)

  predicate InUint32(v: int)
  {
    0 <= v <= MaxUint32
  }

  // ---------------------------------------------------------------------
  // Byte layout
  // ---------------------------------------------------------------------

  /** Bitwise XOR of the low `n` bits of `a` and `b`, bit by bit from
      the least significant. */
  function XorBits(a: nat, b: nat, n: nat): nat
  {
    if n == 0 then 0 else 2 * XorBits(a / 2, b / 2, n - 1) + (a + b) % 2
  }

  /** `n` bits of XOR stay below 2^n. */
  lemma {:induction false} XorBitsBound(a: nat, b: nat, n: nat)
    ensures XorBits(a, b, n) < Pow(2, n)
  {
    if n > 0 {
      XorBitsBound(a / 2, b / 2, n - 1);
    }
  }

  /** `mockData[i] ^ valueBytes[i]` stored back into the Uint8Array,
      which keeps the low eight bits. */
  function Xor(a: byte, b: byte): byte
  {
    XorBits(a, b, 8) % 256
  }

  lemma TwoToTheEight()
    ensures Pow(2, 8) == 256
  {
    assert Pow(2, 2) == 4;
    assert Pow(2, 4) == 2 * (2 * Pow(2, 2));
    assert Pow(2, 8) == 2 * (2 * (2 * (2 * Pow(2, 4))));
  }

  /** The XOR of two bytes is already a byte, so the store keeps it whole. */
  lemma XorIsByte(a: nat, b: nat)
    ensures XorBits(a, b, 8) < 256
    ensures XorBits(a, b, 8) % 256 == XorBits(a, b, 8)
  {
    TwoToTheEight();
    XorBitsBound(a, b, 8);
  }

  lemma {:induction false} XorBitsCommutes(a: nat, b: nat, n: nat)
    ensures XorBits(a, b, n) == XorBits(b, a, n)
  {
    if n > 0 {
      XorBitsCommutes(a / 2, b / 2, n - 1);
    }
  }

  /** XOR-ing the same `b` twice gives back any `a` of at most `n` bits. */
  lemma {:induction false} XorBitsCancel(a: nat, b: nat, n: nat)
    requires a < Pow(2, n)
    ensures XorBits(XorBits(a, b, n), b, n) == a
  {
    if n > 0 {
      var y := XorBits(a / 2, b / 2, n - 1);
      var t := (a + b) % 2;
      assert XorBits(a, b, n) == 2 * y + t;
      HalfAndParity(y, t, b);
      HalfBelow(a, n);
      XorBitsCancel(a / 2, b / 2, n - 1);
      ParityCancel(a, b);
      assert XorBits(2 * y + t, b, n) == 2 * XorBits(y, b / 2, n - 1) + (t + b) % 2;
    }
  }

  lemma HalfBelow(a: nat, n: nat)
    requires n > 0 && a < Pow(2, n)
    ensures a / 2 < Pow(2, n - 1)
  {
    assert Pow(2, n) == 2 * Pow(2, n - 1);
  }

  lemma HalfAndParity(y: nat, t: nat, b: nat)
    requires t < 2
    ensures (2 * y + t) / 2 == y && (2 * y + t + b) % 2 == (t + b) % 2
  {
  }

  lemma ParityCancel(a: nat, b: nat)
    ensures ((a + b) % 2 + b) % 2 == a % 2
    ensures 2 * (a / 2) + a % 2 == a
  {
  }

  /** XOR-ing with the same filler a second time gives the byte back,
      from either side. */
  lemma XorCancel(a: byte, b: byte)
    ensures Xor(Xor(a, b), b) == a
    ensures Xor(Xor(a, b), a) == b
  {
    var x := XorBits(a, b, 8);
    XorIsByte(a, b);
    assert Xor(a, b) == x;
    XorIsByte(x, b);
    XorIsByte(x, a);
    TwoToTheEight();
    XorBitsCancel(a, b, 8);
    XorBitsCommutes(a, b, 8);
    XorBitsCancel(b, a, 8);
  }

  /** `2^(24 - 8k)`: the divisor the right shift of byte `k` amounts to. */
  function Shift(k: nat): nat
    requires k < 4
  {
    if k == 0 then 0x100_0000 else if k == 1 then 0x1_0000 else if k == 2 then 0x100 else 1
  }

  /** `(numValue >> (24 - 8k)) & 0xFF`: `>>` converts its operand with
      ToInt32 and shifts arithmetically (a floor division), `& 0xFF`
      keeps the low eight bits. */
  function ValueByte(v: int, k: nat): byte
    requires k < 4
  {
    (ToInt32(v) / Shift(k)) % 256
  }

  /** Four bytes read big-endian. */
  function Combine(b0: int, b1: int, b2: int, b3: int): int
  {
    b0 * 0x100_0000 + b1 * 0x1_0000 + b2 * 0x100 + b3
  }

  lemma ShiftedByte(v: int, k: nat)
    requires InUint32(v) && k < 4
    ensures ValueByte(v, k) == (v / Shift(k)) % 256
  {
    assert v % Two32 == v;
    if v >= Two31 {
      // ToInt32 subtracts 2^32, a multiple of 256 * Shift(k).
      assert ToInt32(v) == v - Two32;
      if k == 0 {
        Arith.DropMultiple(v, 0x100_0000, 0x100);
        Arith.DropMultiple(v / 0x100_0000, 256, 1);
      } else if k == 1 {
        Arith.DropMultiple(v, 0x1_0000, 0x1_0000);
        Arith.DropMultiple(v / 0x1_0000, 256, 0x100);
      } else if k == 2 {
        Arith.DropMultiple(v, 0x100, 0x100_0000);
        Arith.DropMultiple(v / 0x100, 256, 0x1_0000);
      } else {
        Arith.DropMultiple(v, 256, 0x100_0000);
      }
    } else {
      assert ToInt32(v) == v;
    }
  }

  /** For a uint32 value, the four bytes are its big-endian digits in
      base 256 despite the 32-bit signed shift, so they give the value
      back. */
  lemma ValueBytesBigEndian(v: int)
    requires InUint32(v)
    ensures forall k :: 0 <= k < 4 ==> ValueByte(v, k) == (v / Shift(k)) % 256
    ensures Combine(ValueByte(v, 0), ValueByte(v, 1), ValueByte(v, 2), ValueByte(v, 3)) == v
  {
    forall k | 0 <= k < 4 ensures ValueByte(v, k) == (v / Shift(k)) % 256 {
      ShiftedByte(v, k);
    }
    ShiftedByte(v, 0);
    ShiftedByte(v, 1);
    ShiftedByte(v, 2);
    ShiftedByte(v, 3);
    var d0, d1, d2, d3 := (v / 0x100_0000) % 256, (v / 0x1_0000) % 256, (v / 0x100) % 256, v % 256;
    assert ValueByte(v, 0) == d0 && ValueByte(v, 1) == d1 && ValueByte(v, 2) == d2 && ValueByte(v, 3) == d3;
    BaseDigits(v);
    assert Combine(d0, d1, d2, d3) == v;
  }

  /** The base-256 digits of a uint32, high first, combine to it. */
  lemma BaseDigits(v: int)
    requires InUint32(v)
    ensures Combine((v / 0x100_0000) % 256, (v / 0x1_0000) % 256, (v / 0x100) % 256, v % 256) == v
  {
    var q1, b3 := v / 0x100, v % 0x100;
    var q2, b2 := q1 / 0x100, q1 % 0x100;
    var q3, b1 := q2 / 0x100, q2 % 0x100;
    assert v == q3 * 0x100_0000 + b1 * 0x1_0000 + b2 * 0x100 + b3;
    Arith.DivQuot(v, 0x1_0000, q2, b2 * 0x100 + b3);
    Arith.DivQuot(v, 0x100_0000, q3, b1 * 0x1_0000 + b2 * 0x100 + b3);
    Arith.DivQuot(q3, 256, 0, q3);
  }

  /** The 32 bytes of `mockData` after both loops. */
  function DataBytes(v: int, seed: int, e: Entropy): seq<byte>
    requires InUint32(v)
  {
    seq(32, (j: nat) requires j < 32 => DataByte(v, seed, e, j))
  }

  /** Byte `j` of `mockData`: the filler, XOR-ed with the value's byte
      `j` for the first four. */
  function DataByte(v: int, seed: int, e: Entropy, j: nat): byte
    requires InUint32(v)
  {
    if j < 4 then Xor(e.data(seed, j), ValueByte(v, j)) else e.data(seed, j)
  }

  /** The 64 bytes of `proofData`. */
  function ProofBytes(seed: int, e: Entropy): seq<byte>
  {
    seq(64, (j: nat) requires j < 64 => ProofByte(seed, e, j))
  }

  function ProofByte(seed: int, e: Entropy, j: nat): byte
  {
    e.proof(seed, j)
  }

  // ---------------------------------------------------------------------
  // Hex printing and reading
  // ---------------------------------------------------------------------

  /** A byte as two lower-case hex digits, high digit first. */
  function HexByte(b: byte): string
  {
    [DigitChar(b / 16), DigitChar(b % 16)]
  }

  /** `Array.from(bytes).map(HexByte).join('')`. */
  function HexOf(bs: seq<byte>): string
  {
    if bs == [] then "" else HexByte(bs[0]) + HexOf(bs[1..])
  }

  /** The digit pair is what `b.toString(16).padStart(2, '0')` prints:
      bytes below 16 print one digit and get one '0' in front. */
  lemma HexByteIsPaddedRadix(b: byte)
    ensures HexByte(b) == PadStart(ToRadix(b, 16), 2, '0')
  {
    if b < 16 {
      assert ToRadix(b, 16) == [DigitChar(b)];
      assert PadStart(ToRadix(b, 16), 2, '0') == Repeat('0', 1) + [DigitChar(b)];
    } else {
      assert ToRadix(b / 16, 16) == [DigitChar(b / 16)];
    }
  }

  function HexVal(c: char): nat
  {
    match DigitValue(c, 16)
    case Some(d) => d
    case None => 0
  }

  /** Reads pairs of hex digits back into bytes. */
  function ParseHexBytes(s: string): seq<int>
  {
    if |s| < 2 then [] else [HexVal(s[0]) * 16 + HexVal(s[1])] + ParseHexBytes(s[2..])
  }

  predicate IsHexDigit(c: char)
  {
    '0' <= c <= '9' || 'a' <= c <= 'f' || 'A' <= c <= 'F'
  }

  /** The printed bytes are twice as many lower-case hex digits, and they
      read back as the bytes. */
  lemma {:induction false} HexOfRoundTrip(bs: seq<byte>)
    ensures |HexOf(bs)| == 2 * |bs|
    ensures forall i :: 0 <= i < |HexOf(bs)| ==> IsLowerHexDigit(HexOf(bs)[i])
    ensures ParseHexBytes(HexOf(bs)) == bs
  {
    if bs != [] {
      var b := bs[0];
      HexOfRoundTrip(bs[1..]);
      DigitCharValue(b / 16, 16);
      DigitCharValue(b % 16, 16);
      var h := HexOf(bs);
      assert h == [DigitChar(b / 16), DigitChar(b % 16)] + HexOf(bs[1..]);
      assert h[2..] == HexOf(bs[1..]);
      assert [b] + bs[1..] == bs;
    }
  }

  // ---------------------------------------------------------------------
  // mockEncryptUint32, mockDecryptUint32 and validateEncryptedData
  // ---------------------------------------------------------------------

  /** The object mockEncryptUint32 returns for a value in range. */
  function MockCiphertext(v: int, stamp: Stamp, e: Entropy): Ciphertext
    requires InUint32(v)
  {
    var seed := stamp.seedTime + v;
    Ciphertext(Text("0x" + HexOf(DataBytes(v, seed, e))), Text("0x" + HexOf(ProofBytes(seed, e))),
               true, Some(v), stamp.timestamp)
  }

  /** What mockEncryptUint32 gives or throws. */
  function MockResult(v: int, stamp: Stamp, e: Entropy): Result<Ciphertext, string>
  {
    if InUint32(v) then Ok(MockCiphertext(v, stamp, e)) else Err(Uint32RangeMessage)
  }

  /** `mockEncryptUint32(value)` for an integer `value`: the range
      check, the two buffers, and the printed object. */
  method MockEncryptUint32(value: int, stamp: Stamp, e: Entropy) returns (r: Result<Ciphertext, string>)
    ensures r == MockResult(value, stamp, e)
  {
    if value < 0 || value > MaxUint32 {
      return Err(Uint32RangeMessage);
    }
    var seed := stamp.seedTime + value;
    var dataBytes := FillData(value, seed, e);
    var proofBytes := FillProof(seed, e);
    r := Ok(Ciphertext(Text("0x" + HexOf(dataBytes)), Text("0x" + HexOf(proofBytes)),
                       true, Some(value), stamp.timestamp));
  }

  /** The `mockData` buffer: filler bytes, then the value's four bytes
      XOR-ed into the first four. */
  method FillData(value: int, seed: int, e: Entropy) returns (bytes: seq<byte>)
    requires InUint32(value)
    ensures bytes == DataBytes(value, seed, e)
  {
    var mockData := new byte[32];
    for i := 0 to 32
      invariant forall j :: 0 <= j < i ==> mockData[j] == e.data(seed, j)
    {
      mockData[i] := e.data(seed, i);
    }
    var valueBytes := new byte[4];
    valueBytes[0] := ValueByte(value, 0);
    valueBytes[1] := ValueByte(value, 1);
    valueBytes[2] := ValueByte(value, 2);
    valueBytes[3] := ValueByte(value, 3);
    for i := 0 to 4
      invariant forall j :: 0 <= j < 4 ==> valueBytes[j] == ValueByte(value, j)
      invariant forall j :: 0 <= j < i ==> mockData[j] == Xor(e.data(seed, j), ValueByte(value, j))
      invariant forall j :: i <= j < 32 ==> mockData[j] == e.data(seed, j)
    {
      mockData[i] := Xor(mockData[i], valueBytes[i]);
    }
    forall j | 0 <= j < 32 ensures mockData[..][j] == DataBytes(value, seed, e)[j] {
      assert mockData[j] == DataByte(value, seed, e, j);
    }
    bytes := mockData[..];
  }

  /** The `proofData` buffer. */
  method FillProof(seed: int, e: Entropy) returns (bytes: seq<byte>)
    ensures bytes == ProofBytes(seed, e)
  {
    var proofData := new byte[64];
    for i := 0 to 64
      invariant forall j :: 0 <= j < i ==> proofData[j] == e.proof(seed, j)
    {
      proofData[i] := e.proof(seed, i);
    }
    forall j | 0 <= j < 64 ensures proofData[..][j] == ProofBytes(seed, e)[j] {
      assert proofData[j] == ProofByte(seed, e, j);
    }
    bytes := proofData[..];
  }

  /** `^0x[0-9a-fA-F]+$`. */
  predicate IsHexText(s: string)
  {
    |s| >= 3 && s[0] == '0' && s[1] == 'x' && forall i :: 2 <= i < |s| ==> IsHexDigit(s[i])
  }

  /** `validateEncryptedData(encryptedData)`; None is a value that is not
      an object (null, undefined). */
  predicate ValidateEncryptedData(c: Option<Ciphertext>)
  {
    c.Some? && Truthy(c.value.data) && Truthy(c.value.proof) &&
    IsHexText(c.value.data.s) && IsHexText(c.value.proof.s)
  }

  /** The truthiness checks add nothing to the pattern: valid means both
      fields present and both matching it. */
  lemma ValidateExact(c: Option<Ciphertext>)
    ensures ValidateEncryptedData(c) <==>
              c.Some? && c.value.data.Text? && c.value.proof.Text? &&
              IsHexText(c.value.data.s) && IsHexText(c.value.proof.s)
  {
  }

  /** "0x" + the printed bytes: two lower-case digits per byte after the
      prefix, matching the validator's pattern when there is a byte, and
      reading back as the bytes. */
  lemma HexTextOf(bs: seq<byte>)
    ensures var t := "0x" + HexOf(bs);
            |t| == 2 + 2 * |bs| && t[..2] == "0x" &&
            (forall i :: 2 <= i < |t| ==> IsLowerHexDigit(t[i])) &&
            (|bs| > 0 ==> IsHexText(t)) &&
            ParseHexBytes(t[2..]) == bs
  {
    var h := HexOf(bs);
    var t := "0x" + h;
    HexOfRoundTrip(bs);
    assert t[2..] == h;
    assert forall i :: 2 <= i < |t| ==> t[i] == h[i - 2];
  }

  /** The ciphertext is "0x" + 64 lower-case hex digits, the proof "0x" +
      128, and so every output passes validateEncryptedData; it is marked
      simulated and carries the value. */
  lemma MockCiphertextShape(v: int, stamp: Stamp, e: Entropy)
    requires InUint32(v)
    ensures var c := MockCiphertext(v, stamp, e);
            |c.data.s| == 66 && |c.proof.s| == 130 &&
            c.data.s[..2] == "0x" && c.proof.s[..2] == "0x" &&
            (forall i :: 2 <= i < 66 ==> IsLowerHexDigit(c.data.s[i])) &&
            (forall i :: 2 <= i < 130 ==> IsLowerHexDigit(c.proof.s[i])) &&
            c.isSimulated && c.originalValue == Some(v)
    ensures ValidateEncryptedData(Some(MockCiphertext(v, stamp, e)))
  {
    DataTextShape(v, stamp, e);
    ProofTextShape(v, stamp, e);
  }

  lemma DataTextShape(v: int, stamp: Stamp, e: Entropy)
    requires InUint32(v)
    ensures var t := MockCiphertext(v, stamp, e).data.s;
            |t| == 66 && t[..2] == "0x" && IsHexText(t) &&
            (forall i :: 2 <= i < 66 ==> IsLowerHexDigit(t[i]))
  {
    HexTextOf(DataBytes(v, stamp.seedTime + v, e));
  }

  lemma ProofTextShape(v: int, stamp: Stamp, e: Entropy)
    requires InUint32(v)
    ensures var t := MockCiphertext(v, stamp, e).proof.s;
            |t| == 130 && t[..2] == "0x" && IsHexText(t) &&
            (forall i :: 2 <= i < 130 ==> IsLowerHexDigit(t[i]))
  {
    HexTextOf(ProofBytes(stamp.seedTime + v, e));
  }

  /** Reading the ciphertext's hex back and XOR-ing bytes 0 to 3 with the
      same filler recovers the value. */
  lemma MockCiphertextRecovers(v: int, stamp: Stamp, e: Entropy)
    requires InUint32(v)
    ensures var seed := stamp.seedTime + v;
            var bs := ParseHexBytes(MockCiphertext(v, stamp, e).data.s[2..]);
            |bs| == 32 && (forall i :: 0 <= i < 32 ==> 0 <= bs[i] < 256) &&
            Combine(Xor(bs[0], e.data(seed, 0)), Xor(bs[1], e.data(seed, 1)),
                    Xor(bs[2], e.data(seed, 2)), Xor(bs[3], e.data(seed, 3))) == v
  {
    var seed := stamp.seedTime + v;
    var d := DataBytes(v, seed, e);
    assert MockCiphertext(v, stamp, e).data.s[2..] == HexOf(d) by {
      assert MockCiphertext(v, stamp, e).data.s == "0x" + HexOf(d);
    }
    assert ParseHexBytes(HexOf(d)) == d by {
      HexOfRoundTrip(d);
    }
    DataBytesRecover(v, seed, e);
  }

  lemma DataBytesRecover(v: int, seed: int, e: Entropy)
    requires InUint32(v)
    ensures var d := DataBytes(v, seed, e);
            Combine(Xor(d[0], e.data(seed, 0)), Xor(d[1], e.data(seed, 1)),
                    Xor(d[2], e.data(seed, 2)), Xor(d[3], e.data(seed, 3))) == v
  {
    var d := DataBytes(v, seed, e);
    forall k | 0 <= k < 4 ensures Xor(d[k], e.data(seed, k)) == ValueByte(v, k) {
      assert d[k] == Xor(e.data(seed, k), ValueByte(v, k));
      XorCancel(e.data(seed, k), ValueByte(v, k));
    }
    ValueBytesBigEndian(v);
  }

  /** `mockDecryptUint32(encryptedData)` as written: a falsy
      `originalValue` is rejected, and 0 is falsy. */
  function MockDecryptUint32(c: Ciphertext): Result<int, string>
  {
    if !c.isSimulated || !(c.originalValue.Some? && c.originalValue.value != 0) then Err(NotSimulatedMessage)
    else Ok(c.originalValue.value)
  }

  /** Every in-range value except 0 decrypts back; encrypting 0 gives an
      object that mockDecryptUint32 refuses as not simulated. */
  lemma MockDecryptAsWritten(v: int, stamp: Stamp, e: Entropy)
    requires InUint32(v)
    ensures v != 0 ==> MockDecryptUint32(MockCiphertext(v, stamp, e)) == Ok(v)
    ensures MockDecryptUint32(MockCiphertext(0, stamp, e)) == Err(NotSimulatedMessage)
    ensures forall c: Ciphertext :: !c.isSimulated ==> MockDecryptUint32(c) == Err(NotSimulatedMessage)
  {
  }

  /** The decryption evidently intended: only a missing `originalValue`
      is refused. */
  function MockDecryptPresent(c: Ciphertext): Result<int, string>
  {
    if !c.isSimulated || c.originalValue.None? then Err(NotSimulatedMessage)
    else Ok(c.originalValue.value)
  }

  /** With the presence check every uint32, 0 included, round-trips. */
  lemma MockDecryptRoundTrip(v: int, stamp: Stamp, e: Entropy)
    requires InUint32(v)
    ensures MockDecryptPresent(MockCiphertext(v, stamp, e)) == Ok(v)
    ensures forall c: Ciphertext :: !c.isSimulated || c.originalValue.None? ==> MockDecryptPresent(c).Err?
  {
  }

  // ---------------------------------------------------------------------
  // Glucose
  // ---------------------------------------------------------------------

  /** `Math.round(x)`: half-way cases go up. */
  function Round(x: real): int
  {
    (x + 0.5).Floor
  }

  /** A glucose reading the range check lets through becomes an integer
      number of tenths in [200, 6000]. */
  lemma GlucoseTenths(g: real)
    requires 20.0 <= g <= 600.0
    ensures 200 <= Round(g * 10.0) <= 6000
    ensures InUint32(Round(g * 10.0))
  {
  }

  /** `mockEncryptGlucose(value)` for a numeric `value`. */
  method MockEncryptGlucose(g: real, stamp: Stamp, e: Entropy) returns (r: Result<Ciphertext, string>)
    ensures g < 20.0 || g > 600.0 ==> r == Err(GlucoseRangeMessage)
    ensures 20.0 <= g <= 600.0 ==> r == Ok(MockCiphertext(Round(g * 10.0), stamp, e)) &&
                                   200 <= r.value.originalValue.value <= 6000
  {
    if g < 20.0 || g > 600.0 {
      return Err(GlucoseRangeMessage);
    }
    GlucoseTenths(g);
    r := MockEncryptUint32(Round(g * 10.0), stamp, e);
  }

  // ---------------------------------------------------------------------
  // The client object
  // ---------------------------------------------------------------------

  /** `getStatus()`. */
  datatype Status = Status(initialized: bool, mode: string, hasInstance: bool, hasPublicKey: bool)

  class Client {
    /** `typeof window !== 'undefined'`. */
    const browser: bool
    var initialized: bool
    var isSimulationMode: bool
    var publicKey: Field

    constructor(browser: bool)
      ensures this.browser == browser
      ensures !initialized && isSimulationMode && publicKey == Absent
    {
      this.browser := browser;
      initialized := false;
      isSimulationMode := true;
      publicKey := Absent;
    }

    /** `initialize(provider)`: always ends initialized in simulation
        mode; only in a browser is the zero public key set. */
    method Initialize() returns (ok: bool)
      modifies this
      ensures initialized && isSimulationMode
      ensures ok == browser
      ensures publicKey == if browser then Text(ZeroPublicKey) else old(publicKey)
    {
      if !browser {
        isSimulationMode := true;
        initialized := true;
        return false;
      }
      isSimulationMode := true;
      initialized := true;
      publicKey := Text(ZeroPublicKey);
      return true;
    }

    /** `getPublicKey()`. */
    function GetPublicKey(): string
      reads this
    {
      if Truthy(publicKey) then publicKey.s else ZeroPublicKey
    }

    /** `getMode()`. */
    function GetMode(): string
    {
      "simulation"
    }

    /** `getStatus()`. */
    function GetStatus(): Status
      reads this
    {
      Status(initialized, GetMode(), false, Truthy(publicKey))
    }

    /** The state after a first use has run `initialize`: an initialized
        client keeps its mode and key; otherwise it is now initialized in
        simulation mode and, in a browser, holds the zero public key. */
    twostate predicate PreparedForUse()
      reads this
    {
      initialized &&
      if old(initialized) then isSimulationMode == old(isSimulationMode) && publicKey == old(publicKey)
      else isSimulationMode && publicKey == if browser then Text(ZeroPublicKey) else old(publicKey)
    }

    /** `encryptUint32(value)`: initializes on first use, then encrypts
        with the mock. */
    method EncryptUint32(value: int, stamp: Stamp, e: Entropy) returns (r: Result<Ciphertext, string>)
      modifies this
      ensures PreparedForUse()
      ensures r == MockResult(value, stamp, e)
    {
      if !initialized {
        var _ := Initialize();
      }
      r := MockEncryptUint32(value, stamp, e);
    }

    /** `encryptBloodGlucose(glucoseValue)` for a numeric value. */
    method EncryptBloodGlucose(g: real, stamp: Stamp, e: Entropy) returns (r: Result<Ciphertext, string>)
      modifies this
      ensures g < 20.0 || g > 600.0 ==> r == Err(GlucoseRangeMessage) && unchanged(this)
      ensures 20.0 <= g <= 600.0 ==> r == Ok(MockCiphertext(Round(g * 10.0), stamp, e)) &&
                                     200 <= r.value.originalValue.value <= 6000
      ensures 20.0 <= g <= 600.0 ==> PreparedForUse()
    {
      if g < 20.0 || g > 600.0 {
        return Err(GlucoseRangeMessage);
      }
      GlucoseTenths(g);
      r := EncryptUint32(Round(g * 10.0), stamp, e);
    }

    /** `encryptBatch(values)`: one encryption per value, in order; the
        first value out of range rejects the whole batch. `clock(i)` is
        the time of the i-th encryption. */
    method EncryptBatch(values: seq<int>, clock: nat -> Stamp, e: Entropy) returns (r: Result<seq<Ciphertext>, string>)
      modifies this
      ensures r.Ok? <==> forall i :: 0 <= i < |values| ==> InUint32(values[i])
      ensures r.Ok? ==> |r.value| == |values| &&
                        forall i :: 0 <= i < |values| ==> r.value[i] == MockCiphertext(values[i], clock(i), e)
      ensures r.Err? ==> r.error == Uint32RangeMessage
      ensures |values| == 0 ==> unchanged(this)
      ensures |values| > 0 ==> PreparedForUse()
    {
      var results: seq<Ciphertext> := [];
      for i := 0 to |values|
        invariant |results| == i
        invariant i == 0 ==> unchanged(this)
        invariant i > 0 ==> PreparedForUse()
        invariant forall j :: 0 <= j < i ==> InUint32(values[j]) && results[j] == MockCiphertext(values[j], clock(j), e)
      {
        var one := EncryptUint32(values[i], clock(i), e);
        if one.Err? {
          return Err(one.error);
        }
        results := results + [one.value];
      }
      return Ok(results);
    }

    /** `encryptGlucoseBatch(values)`: encryptBatch on the readings
        scaled to tenths. */
    method EncryptGlucoseBatch(values: seq<real>, clock: nat -> Stamp, e: Entropy) returns (r: Result<seq<Ciphertext>, string>)
      modifies this
      ensures r.Ok? <==> forall i :: 0 <= i < |values| ==> InUint32(ScaledReadings(values)[i])
      ensures r.Ok? ==> |r.value| == |values| &&
                        forall i :: 0 <= i < |values| ==> r.value[i] == MockCiphertext(ScaledReadings(values)[i], clock(i), e)
      ensures r.Err? ==> r.error == Uint32RangeMessage
      ensures |values| == 0 ==> unchanged(this)
      ensures |values| > 0 ==> PreparedForUse()
    {
      r := EncryptBatch(ScaledReadings(values), clock, e);
    }
  }

  /** `values.map(v => Math.round(parseFloat(v) * 10))` on numeric values. */
  function ScaledReadings(values: seq<real>): (ints: seq<int>)
    ensures |ints| == |values|
  {
    seq(|values|, i requires 0 <= i < |values| => Round(values[i] * 10.0))
  }

  /** Unlike encryptBloodGlucose, the batch has no 20-600 check: any
      reading, in range or not, becomes its tenths, and every reading
      from 0 to 400,000,000 fits in a uint32 so the batch goes through. */
  lemma ScaledReadingsRange(values: seq<real>)
    ensures forall i :: 0 <= i < |values| ==> ScaledReadings(values)[i] == Round(values[i] * 10.0)
    ensures (forall i :: 0 <= i < |values| ==> 0.0 <= values[i] <= 400000000.0) ==>
              forall i :: 0 <= i < |values| ==> InUint32(ScaledReadings(values)[i])
    ensures forall i :: 0 <= i < |values| && 20.0 <= values[i] <= 600.0 ==>
              200 <= ScaledReadings(values)[i] <= 6000
  {
  }

  /** The public key falls back to "0x" + 64 zeros, the mode is always
      'simulation', and the status reports the key's presence. */
  lemma PublicKeyAndMode(c: Client)
    ensures c.publicKey == Absent ==> c.GetPublicKey() == ZeroPublicKey
    ensures |ZeroPublicKey| == 66 && forall i :: 2 <= i < 66 ==> ZeroPublicKey[i] == '0'
    ensures c.GetMode() == "simulation"
    ensures c.GetStatus().hasPublicKey <==> Truthy(c.publicKey)
  {
    assert forall i :: 2 <= i < 66 ==> ZeroPublicKey[i] == Repeat('0', 64)[i - 2];
  }
}
