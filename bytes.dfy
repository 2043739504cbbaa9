/** Byte-level building blocks of the MQTT v5 wire format: unsigned integers
    in network byte order (sections 1.5.2 and 1.5.3 of the MQTT Version 5.0
    standard), the Variable Byte Integer (section 1.5.5) and UTF-8
    well-formedness as defined by section 4 of RFC 3629. */
module Bytes {

  type byte = bv8
  type u16 = x: int | 0 <= x < 0x1_0000
  type u32 = x: int | 0 <= x < 0x1_0000_0000

  /** The byte whose value is `x`. It counts up from 0 so that its proof
      only ever converts bytes to integers, never integers to bytes. */
  function ByteOf(x: nat): (b: byte)
    requires x < 256
    ensures b as int == x
  {
    if x == 0 then 0 else ByteOf(x - 1) + 1
  }

  // ---------------------------------------------------------------------------
  // Big-endian integers (Two Byte Integer, Four Byte Integer)
  // ---------------------------------------------------------------------------

  function Pow256(n: nat): (r: nat)
    ensures r > 0
  {
    if n == 0 then 1 else 256 * Pow256(n - 1)
  }

  /** The unsigned value of `s`, most significant byte first. */
  function BigEndian(s: seq<byte>): (v: nat)
    ensures v < Pow256(|s|)
  {
    if s == [] then 0 else BigEndian(s[..|s| - 1]) * 256 + s[|s| - 1] as int
  }

  /** The `n`-byte big-endian representation of `v`. */
  function ToBigEndian(v: nat, n: nat): (s: seq<byte>)
    requires v < Pow256(n)
    ensures |s| == n
  {
    if n == 0 then [] else ToBigEndian(v / 256, n - 1) + [ByteOf(v % 256)]
  }

  /** Reading back an `n`-byte representation gives the value. */
  lemma {:induction false} BigEndianOfToBigEndian(v: nat, n: nat)
    requires v < Pow256(n)
    ensures BigEndian(ToBigEndian(v, n)) == v
  {
    if n > 0 {
      var q, r := v / 256, v % 256;
      var s := ToBigEndian(v, n);
      assert s[..n - 1] == ToBigEndian(q, n - 1);
      BigEndianOfToBigEndian(q, n - 1);
      assert BigEndian(s) == q * 256 + r;
    }
  }

  /** The two-byte case, spelt out as a reader computes it. */
  lemma BigEndian2(a: byte, b: byte)
    ensures BigEndian([a, b]) == a as int * 0x100 + b as int
  {
    assert [a, b][..1] == [a];
    assert [a][..0] == [];
  }

  /** The four-byte case, spelt out as a reader computes it. */
  lemma BigEndian4(a: byte, b: byte, c: byte, d: byte)
    ensures BigEndian([a, b, c, d])
         == a as int * 0x100_0000 + b as int * 0x1_0000 + c as int * 0x100 + d as int
  {
    assert [a, b, c, d][..3] == [a, b, c];
    assert [a, b, c][..2] == [a, b];
    BigEndian2(a, b);
  }

  // ---------------------------------------------------------------------------
  // Variable Byte Integer (section 1.5.5)
  // ---------------------------------------------------------------------------

  /** Largest value a four-byte Variable Byte Integer can hold. */
  const VBI_MAX: nat := 268_435_455

  /** Bit 7 of an encoded byte: another byte of the integer follows. */
  predicate Continues(b: byte) {
    b & 0x80 != 0
  }

  /** The seven value bits of an encoded byte. */
  function Digit(b: byte): (d: nat)
    ensures d < 128
  {
    (b & 0x7F) as int
  }

  /** `s` is exactly one Variable Byte Integer: one to four bytes, the
      continuation bit set on every byte except the last. */
  predicate IsVbi(s: seq<byte>) {
    && 1 <= |s| <= 4
    && (forall i :: 0 <= i < |s| - 1 ==> Continues(s[i]))
    && !Continues(s[|s| - 1])
  }

  /** The value of the digits of `s`, least significant group first. */
  function VbiValue(s: seq<byte>): nat {
    if s == [] then 0 else Digit(s[0]) + 128 * VbiValue(s[1..])
  }

  /** Number of bytes the encoding of `v` occupies. */
  function VbiSize(v: nat): nat {
    if v < 128 then 1
    else if v < 16_384 then 2
    else if v < 2_097_152 then 3
    else 4
  }

  /** The encoding of section 1.5.5: seven bits at a time, low group first,
      with the continuation bit on every byte but the last. */
  function VbiEncode(v: nat): seq<byte>
    requires v <= VBI_MAX
  {
    if v < 128 then [ByteOf(v)] else [ByteOf(v % 128 + 128)] + VbiEncode(v / 128)
  }

  /** The encoding is one Variable Byte Integer of `VbiSize(v)` bytes whose
      value is `v`. */
  lemma {:induction false} VbiEncodeCorrect(v: nat)
    requires v <= VBI_MAX
    ensures |VbiEncode(v)| == VbiSize(v)
    ensures IsVbi(VbiEncode(v))
    ensures VbiValue(VbiEncode(v)) == v
  {
    if v >= 128 {
      VbiEncodeCorrect(v / 128);
      DigitOfContinued(v % 128);
      VbiSizeStep(v);
      VbiCons(ByteOf(v % 128 + 128), VbiEncode(v / 128));
    } else {
      DigitOfByte(v);
    }
  }

  /** Prefixing a continued byte to a shorter integer gives a longer one. */
  lemma VbiCons(first: byte, rest: seq<byte>)
    requires Continues(first) && IsVbi(rest) && |rest| <= 3
    ensures IsVbi([first] + rest)
    ensures VbiValue([first] + rest) == Digit(first) + 128 * VbiValue(rest)
  {
    var s := [first] + rest;
    assert s[1..] == rest;
    forall i | 0 <= i < |s| - 1 ensures Continues(s[i]) {
      if i > 0 { assert s[i] == rest[i - 1]; }
    }
  }

  lemma DigitOfContinued(d: nat)
    requires d < 128
    ensures Continues(ByteOf(d + 128)) && Digit(ByteOf(d + 128)) == d
  {
    var b := ByteOf(d + 128);
    ContinuesIsHighBit(b);
    DigitIsLowBits(b);
  }

  lemma DigitOfByte(d: nat)
    requires d < 128
    ensures !Continues(ByteOf(d)) && Digit(ByteOf(d)) == d
  {
    var b := ByteOf(d);
    ContinuesIsHighBit(b);
    DigitIsLowBits(b);
  }

  lemma ContinuesIsHighBit(b: byte)
    ensures Continues(b) <==> b as int >= 128
  {
  }

  lemma DigitIsLowBits(b: byte)
    ensures Digit(b) == b as int % 128
  {
  }

  lemma VbiSizeStep(v: nat)
    requires 128 <= v <= VBI_MAX
    ensures v / 128 <= VBI_MAX && VbiSize(v / 128) == VbiSize(v) - 1
  {
  }

  /** A Variable Byte Integer never exceeds VBI_MAX. */
  lemma {:induction false} VbiValueBound(s: seq<byte>)
    requires |s| <= 4
    ensures VbiValue(s) < Pow128(|s|)
  {
    if s != [] {
      VbiValueBound(s[1..]);
    }
  }

  function Pow128(n: nat): (r: nat)
    ensures r > 0
  {
    if n == 0 then 1 else 128 * Pow128(n - 1)
  }

  lemma VbiValueAtMostMax(s: seq<byte>)
    requires IsVbi(s)
    ensures VbiValue(s) <= VBI_MAX
  {
    VbiValueBound(s);
    assert Pow128(4) == VBI_MAX + 1;
  }

  // ---------------------------------------------------------------------------
  // UTF-8 well-formedness (section 4 of RFC 3629)
  // ---------------------------------------------------------------------------

  predicate IsTail(b: byte) {
    0x80 <= b <= 0xBF
  }

  /** Length of the well-formed UTF-8 character at the start of `s`, or 0 when
      `s` does not start with one. */
  function FirstCharLength(s: seq<byte>): (n: nat)
    ensures n <= |s| && n <= 4
    ensures s != [] && s[0] < 0x80 ==> n == 1
  {
    if s == [] then 0
    else
      var b := s[0];
      if b <= 0x7F then 1
      else if 0xC2 <= b <= 0xDF then
        if |s| >= 2 && IsTail(s[1]) then 2 else 0
      else if 0xE0 <= b <= 0xEF then
        var lo: byte := if b == 0xE0 then 0xA0 else 0x80;
        var hi: byte := if b == 0xED then 0x9F else 0xBF;
        if |s| >= 3 && lo <= s[1] <= hi && IsTail(s[2]) then 3 else 0
      else if 0xF0 <= b <= 0xF4 then
        var lo: byte := if b == 0xF0 then 0x90 else 0x80;
        var hi: byte := if b == 0xF4 then 0x8F else 0xBF;
        if |s| >= 4 && lo <= s[1] <= hi && IsTail(s[2]) && IsTail(s[3]) then 4 else 0
      else 0
  }

  /** `s` is a sequence of well-formed UTF-8 characters. */
  predicate ValidUtf8(s: seq<byte>)
    decreases |s|
  {
    s == [] || (FirstCharLength(s) > 0 && ValidUtf8(s[FirstCharLength(s)..]))
  }

  /** Every sequence of 7-bit ASCII bytes is valid UTF-8. */
  lemma {:induction false} AsciiIsValidUtf8(s: seq<byte>)
    requires forall i :: 0 <= i < |s| ==> s[i] < 0x80
    ensures ValidUtf8(s)
  {
    if s != [] {
      AsciiIsValidUtf8(s[1..]);
    }
  }

  /** A byte with the top bit set can never start a valid string of one byte. */
  lemma LoneHighByteIsInvalid(b: byte)
    requires b >= 0x80
    ensures !ValidUtf8([b])
  {
  }
}
