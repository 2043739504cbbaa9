/** The cursor over an immutable byte buffer that every MQTT v5 decoder
    shares (src/utils/buffer_reader.rs), with the length-prefixed views it
    hands out. A view is an (offset, length) range into the buffer rather than
    a borrowed slice.

    Each read has a pure specification `Parse*(buf, pos)` giving its result
    and the cursor position after it; the `BuffReader` methods are proved to
    behave exactly as those functions say. */
module BufferReader {
  import opened Bytes

  datatype ParseError =
    | Utf8Error
    | IndexOutOfBounce
    | VariableByteIntegerError
    | IdNotFound
    | EncodingError
    | DecodingError

  datatype Result<T> = Ok(value: T) | Err(error: ParseError)

  /** What a read yields: its result, and where the cursor stands after it
      (also when it fails). */
  datatype Step<T> = Step(result: Result<T>, next: nat)

  function Propagate<T, U>(s: Step<T>): Step<U>
    requires s.result.Err?
  {
    Step(Err(s.result.error), s.next)
  }

  // ---------------------------------------------------------------------------
  // Views
  // ---------------------------------------------------------------------------

  /** A UTF-8 Encoded String (section 1.5.4): the `len` bytes at `offset`,
      which follow a two-byte length prefix. */
  datatype EncodedString = EncodedString(offset: nat, len: u16) {
    /** Bytes the string occupies on the wire, prefix included. It agrees with
        the source's 16-bit `len()` exactly when that does not overflow. */
    function Len(): (n: nat)
      ensures n >= 2
      ensures len < 0xFFFE <==> n == EncodedLenAsWritten(len)
    {
      len + 2
    }

    predicate InBounds(buf: seq<byte>) {
      offset + len <= |buf|
    }

    function Text(buf: seq<byte>): seq<byte>
      requires InBounds(buf)
    {
      buf[offset..offset + len]
    }
  }

  /** `EncodedString::new`: the empty string, which lies inside every buffer. */
  function EmptyString(): (s: EncodedString)
    ensures s.len == 0 && s.Len() == 2
    ensures forall buf :: s.InBounds(buf) && s.Text(buf) == []
  {
    EncodedString(0, 0)
  }

  /** Binary Data (section 1.5.6), with the same prefix convention. */
  datatype BinaryData = BinaryData(offset: nat, len: u16) {
    /** Bytes the data occupies on the wire, prefix included. It agrees with
        the source's 16-bit `len()` exactly when that does not overflow. */
    function Len(): (n: nat)
      ensures n >= 2
      ensures len < 0xFFFE <==> n == EncodedLenAsWritten(len)
    {
      len + 2
    }

    predicate InBounds(buf: seq<byte>) {
      offset + len <= |buf|
    }

    function Data(buf: seq<byte>): seq<byte>
      requires InBounds(buf)
    {
      buf[offset..offset + len]
    }
  }

  /** `BinaryData::new`: binary data of length 0. The source points it at a
      one-byte constant outside the buffer; here it is the empty range at 0,
      which lies inside every buffer. */
  function EmptyBinary(): (b: BinaryData)
    ensures b.len == 0 && b.Len() == 2
    ensures forall buf :: b.InBounds(buf) && b.Data(buf) == []
  {
    BinaryData(0, 0)
  }

  /** A UTF-8 String Pair (section 1.5.7). */
  datatype StringPair = StringPair(name: EncodedString, value: EncodedString) {
    /** Encoded size: the sum of both strings' encoded sizes. It agrees with
        the source's 16-bit sum exactly when that does not overflow. */
    function Len(): (n: nat)
      ensures n >= 4
      ensures n < 0x1_0000
              <==> n == (EncodedLenAsWritten(name.len) + EncodedLenAsWritten(value.len)) % 0x1_0000
    {
      name.Len() + value.Len()
    }
  }

  /** A topic filter with its subscription options byte (for SUBSCRIBE). */
  datatype TopicFilter = TopicFilter(filter: EncodedString, subOptions: byte) {
    /** Encoded size: the filter string plus the options byte. */
    function Len(): (n: nat)
      ensures n == filter.Len() + 1
    {
      filter.len + 3
    }
  }

  /** `TopicFilter::new`: the empty filter with options 0, three bytes on
      the wire. */
  function EmptyTopicFilter(): (t: TopicFilter)
    ensures t.filter.len == 0 && t.subOptions == 0 && t.Len() == 3
  {
    TopicFilter(EmptyString(), 0)
  }

  /** The source's `len()` helpers compute in 16 bits: `self.len + 2` as a
      wrapping u16 addition (release builds; debug builds panic instead). */
  function EncodedLenAsWritten(len: u16): (n: u16)
    ensures len < 0xFFFE ==> n == len + 2
    ensures len >= 0xFFFE ==> n == len - 0xFFFE
  {
    (len + 2) % 0x1_0000
  }

  // ---------------------------------------------------------------------------
  // Specification of the reads
  // ---------------------------------------------------------------------------

  function ParseU8(buf: seq<byte>, pos: nat): Step<byte> {
    if pos < |buf| then Step(Ok(buf[pos]), pos + 1) else Step(Err(IndexOutOfBounce), pos)
  }

  function ParseU16(buf: seq<byte>, pos: nat): Step<u16> {
    if pos + 2 <= |buf| then
      var v := BigEndian(buf[pos..pos + 2]);
      assert Pow256(2) == 0x1_0000;
      Step(Ok(v), pos + 2)
    else Step(Err(IndexOutOfBounce), pos)
  }

  function ParseU32(buf: seq<byte>, pos: nat): Step<u32> {
    if pos + 4 <= |buf| then
      var v := BigEndian(buf[pos..pos + 4]);
      assert Pow256(4) == 0x1_0000_0000;
      Step(Ok(v), pos + 4)
    else Step(Err(IndexOutOfBounce), pos)
  }

  /** The Variable Byte Integer at `pos`. On a malformed integer (four bytes,
      all with the continuation bit) the cursor has moved past the four bytes,
      as the source advances before handing them to the decoder. */
  function ParseVbi(buf: seq<byte>, pos: nat): Step<nat> {
    if pos > |buf| then Step(Err(IndexOutOfBounce), pos)
    else match VbiLength(buf[pos..])
      case Ok(n) => Step(Ok(VbiValue(buf[pos..pos + n])), pos + n)
      case Err(e) => Step(Err(e), if e == VariableByteIntegerError then pos + 4 else pos)
  }

  /** Bytes a Variable Byte Integer at the start of `s` spans: `Ok(n)` for a
      complete one, `VariableByteIntegerError` when four bytes all continue,
      `IndexOutOfBounce` when `s` ends first. */
  function VbiLength(s: seq<byte>): Result<nat> {
    VbiLengthFrom(s, 0)
  }

  function VbiLengthFrom(s: seq<byte>, i: nat): Result<nat>
    requires i <= 3
    decreases 3 - i
  {
    if i >= |s| then Err(IndexOutOfBounce)
    else if !Continues(s[i]) then Ok(i + 1)
    else if i == 3 then Err(VariableByteIntegerError)
    else VbiLengthFrom(s, i + 1)
  }

  function ParseString(buf: seq<byte>, pos: nat): Step<EncodedString> {
    var prefix := ParseU16(buf, pos);
    if prefix.result.Err? then Propagate(prefix)
    else
      var start, len := prefix.next, prefix.result.value;
      if start + len > |buf| then Step(Err(IndexOutOfBounce), start)
      else if !ValidUtf8(buf[start..start + len]) then Step(Err(Utf8Error), start)
      else Step(Ok(EncodedString(start, len)), start + len)
  }

  function ParseBinary(buf: seq<byte>, pos: nat): Step<BinaryData> {
    var prefix := ParseU16(buf, pos);
    if prefix.result.Err? then Propagate(prefix)
    else
      var start, len := prefix.next, prefix.result.value;
      if start + len > |buf| then Step(Err(IndexOutOfBounce), start)
      else Step(Ok(BinaryData(start, len)), start + len)
  }

  /** `read_binary` as written: the data is returned but the cursor is left
      just after the length prefix (a short buffer, on which the source
      panics, is shown as `IndexOutOfBounce`). */
  function ParseBinaryAsWritten(buf: seq<byte>, pos: nat): (s: Step<BinaryData>)
    ensures s.result == ParseBinary(buf, pos).result
    ensures s.next == ParseU16(buf, pos).next
  {
    var prefix := ParseU16(buf, pos);
    if prefix.result.Err? then Propagate(prefix)
    else
      var start, len := prefix.next, prefix.result.value;
      if start + len > |buf| then Step(Err(IndexOutOfBounce), start)
      else Step(Ok(BinaryData(start, len)), start)
  }

  function ParseStringPair(buf: seq<byte>, pos: nat): Step<StringPair> {
    var name := ParseString(buf, pos);
    if name.result.Err? then Propagate(name)
    else
      var value := ParseString(buf, name.next);
      if value.result.Err? then Propagate(value)
      else Step(Ok(StringPair(name.result.value, value.result.value)), value.next)
  }

  // ---------------------------------------------------------------------------
  // The reader
  // ---------------------------------------------------------------------------

  /** A cursor over an immutable buffer. The buffer is never copied or
      changed; only `position` moves. */
  class BuffReader {
    const buffer: seq<byte>
    var position: nat

    constructor (buffer: seq<byte>)
      ensures this.buffer == buffer && position == 0
    {
      this.buffer := buffer;
      position := 0;
    }

    method IncrementPosition(increment: nat)
      modifies this
      ensures position == old(position) + increment
    {
      position := position + increment;
    }

    method ReadU8() returns (r: Result<byte>)
      modifies this
      ensures Step(r, position) == ParseU8(buffer, old(position))
    {
      if position >= |buffer| {
        return Err(IndexOutOfBounce);
      }
      var b := buffer[position];
      IncrementPosition(1);
      return Ok(b);
    }

    method ReadU16() returns (r: Result<u16>)
      modifies this
      ensures Step(r, position) == ParseU16(buffer, old(position))
    {
      if position + 2 > |buffer| {
        return Err(IndexOutOfBounce);
      }
      var p := position;
      var v := buffer[p] as int * 0x100 + buffer[p + 1] as int;
      assert buffer[p..p + 2] == [buffer[p], buffer[p + 1]];
      BigEndian2(buffer[p], buffer[p + 1]);
      IncrementPosition(2);
      return Ok(v);
    }

    method ReadU32() returns (r: Result<u32>)
      modifies this
      ensures Step(r, position) == ParseU32(buffer, old(position))
    {
      if position + 4 > |buffer| {
        return Err(IndexOutOfBounce);
      }
      var p := position;
      var v := buffer[p] as int * 0x100_0000 + buffer[p + 1] as int * 0x1_0000
             + buffer[p + 2] as int * 0x100 + buffer[p + 3] as int;
      assert buffer[p..p + 4] == [buffer[p], buffer[p + 1], buffer[p + 2], buffer[p + 3]];
      BigEndian4(buffer[p], buffer[p + 1], buffer[p + 2], buffer[p + 3]);
      IncrementPosition(4);
      return Ok(v);
    }

    /** Finds the true length of the integer from the continuation bits, each
        byte checked against the end of the buffer before it is looked at,
        advances by that length and hands the bytes to the decoder. */
    method ReadVariableByteInt() returns (r: Result<nat>)
      modifies this
      ensures Step(r, position) == ParseVbi(buffer, old(position))
    {
      var p := position;
      if p >= |buffer| {
        return Err(IndexOutOfBounce);
      }
      ghost var rest := buffer[p..];
      var len := 1;
      if buffer[p] & 0x80 != 0 {
        if p + 1 >= |buffer| {
          assert VbiLength(rest) == VbiLengthFrom(rest, 1);
          return Err(IndexOutOfBounce);
        }
        len := 2;
        if buffer[p + 1] & 0x80 != 0 {
          if p + 2 >= |buffer| {
            assert VbiLength(rest) == VbiLengthFrom(rest, 2);
            return Err(IndexOutOfBounce);
          }
          len := 3;
          if buffer[p + 2] & 0x80 != 0 {
            if p + 3 >= |buffer| {
              assert VbiLength(rest) == VbiLengthFrom(rest, 3);
              return Err(IndexOutOfBounce);
            }
            len := 4;
          }
        }
      }
      VbiLengthOfWindow(rest, len);
      assert p + len <= |buffer|;
      assert rest[..len] == buffer[p..p + len];
      IncrementPosition(len);
      r := DecodeVbi(buffer[p..p + len]);
      assert buffer[p..p + len][..len] == buffer[p..p + len];
    }

    /** Reads the length prefix, checks that many bytes remain and that they
        are valid UTF-8, and returns a view of them. */
    method ReadString() returns (r: Result<EncodedString>)
      modifies this
      ensures Step(r, position) == ParseString(buffer, old(position))
    {
      var len := ReadU16();
      if len.Err? {
        return Err(len.error);
      }
      var l := len.value;
      if position + l > |buffer| {
        return Err(IndexOutOfBounce);
      }
      if !ValidUtf8(buffer[position..position + l]) {
        return Err(Utf8Error);
      }
      var s := EncodedString(position, l);
      IncrementPosition(l);
      return Ok(s);
    }

    /** Reads the length prefix, checks that many bytes remain, returns a view
        of them and moves past them. */
    method ReadBinary() returns (r: Result<BinaryData>)
      modifies this
      ensures Step(r, position) == ParseBinary(buffer, old(position))
    {
      var len := ReadU16();
      if len.Err? {
        return Err(len.error);
      }
      var l := len.value;
      if position + l > |buffer| {
        return Err(IndexOutOfBounce);
      }
      var b := BinaryData(position, l);
      IncrementPosition(l);
      return Ok(b);
    }

    /** Name, then value; a failure reading the name is returned at once. */
    method ReadStringPair() returns (r: Result<StringPair>)
      modifies this
      ensures Step(r, position) == ParseStringPair(buffer, old(position))
    {
      var name := ReadString();
      if name.Err? {
        return Err(name.error);
      }
      var value := ReadString();
      if value.Err? {
        return Err(value.error);
      }
      return Ok(StringPair(name.value, value.value));
    }

    /** The bytes from the cursor up to `totalLen`; the cursor stays put. */
    method ReadMessage(totalLen: nat) returns (r: Result<seq<byte>>)
      ensures r.Ok? <==> position <= totalLen <= |buffer|
      ensures r.Ok? ==> r.value == buffer[position..totalLen]
      ensures r.Err? ==> r.error == IndexOutOfBounce
    {
      if position <= totalLen <= |buffer| {
        return Ok(buffer[position..totalLen]);
      }
      return Err(IndexOutOfBounce);
    }
  }

  /** The decoder of section 1.5.5, given the bytes at the cursor: seven bits
      per byte, low group first, until a byte without the continuation bit;
      a fourth byte that still continues is malformed. */
  method DecodeVbi(encoded: seq<byte>) returns (r: Result<nat>)
    ensures VbiLength(encoded).Ok? ==> r == Ok(VbiValue(encoded[..VbiLength(encoded).value]))
    ensures VbiLength(encoded).Err? ==> r == Err(VbiLength(encoded).error)
  {
    var value, multiplier, i := 0, 1, 0;
    while i < |encoded| && i < 4
      invariant 0 <= i <= 4 && i <= |encoded|
      invariant multiplier == Pow128(i)
      invariant value == VbiValue(encoded[..i])
      invariant VbiLength(encoded) == VbiLengthFrom(encoded, if i < 4 then i else 3)
      invariant i == 4 ==> Continues(encoded[3])
    {
      var b := encoded[i];
      VbiValueSnoc(encoded[..i], b);
      assert encoded[..i + 1] == encoded[..i] + [b];
      value := value + Digit(b) * multiplier;
      if b & 0x80 == 0 {
        return Ok(value);
      }
      multiplier := multiplier * 128;
      i := i + 1;
    }
    if i == 4 {
      return Err(VariableByteIntegerError);
    }
    return Err(IndexOutOfBounce);
  }

  /** Appending a byte adds its digit at the next power of 128. */
  lemma {:induction false} VbiValueSnoc(s: seq<byte>, b: byte)
    ensures VbiValue(s + [b]) == VbiValue(s) + Digit(b) * Pow128(|s|)
  {
    if s != [] {
      var t := s[1..];
      assert (s + [b])[0] == s[0];
      assert (s + [b])[1..] == t + [b];
      VbiValueSnoc(t, b);
      assert VbiValue(s + [b]) == Digit(s[0]) + 128 * VbiValue(t + [b]);
      MulLeftCommutes(128, Digit(b), Pow128(|t|));
    }
  }

  lemma MulLeftCommutes(a: int, b: int, c: int)
    ensures a * (b * c) == b * (a * c)
  {
  }

  /** The reader's window of `len` bytes has the same integer length as the
      rest of the buffer when the window ends at the terminator (or at the
      fourth byte). */
  lemma VbiLengthOfWindow(rest: seq<byte>, len: nat)
    requires 1 <= len <= 4 && len <= |rest|
    requires forall i :: 0 <= i < len - 1 ==> Continues(rest[i])
    requires len < 4 ==> !Continues(rest[len - 1])
    ensures VbiLength(rest[..len]) == VbiLength(rest)
    ensures VbiLength(rest).Ok? ==> VbiLength(rest).value == len
    ensures VbiLength(rest).Err? ==> len == 4 && VbiLength(rest).error == VariableByteIntegerError
  {
    var w := rest[..len];
    if len == 1 {
    } else if len == 2 {
      assert Continues(w[0]);
    } else if len == 3 {
      assert Continues(w[0]) && Continues(w[1]);
    } else {
      assert Continues(w[0]) && Continues(w[1]) && Continues(w[2]);
    }
  }

  /** `read_variable_byte_int` as written: each continuation test is
      `b & 0x80 == 1`, which no byte passes, so the length is always 1. */
  function VbiLengthAsWritten(b0: byte, b1: byte, b2: byte): (n: int)
    ensures n == 1
  {
    if b0 & 0x80 == 1 then
      if b1 & 0x80 == 1 then
        if b2 & 0x80 == 1 then 4 else 3
      else 2
    else 1
  }

  // ---------------------------------------------------------------------------
  // Properties of the reads
  // ---------------------------------------------------------------------------

  /** A successful read stays inside the buffer and moves the cursor forward;
      a failed one never reports a position before where it started. */
  lemma ReadsStayInBounds(buf: seq<byte>, pos: nat)
    ensures ParseU8(buf, pos).next >= pos && ParseU16(buf, pos).next >= pos
    ensures ParseU32(buf, pos).next >= pos && ParseVbi(buf, pos).next >= pos
    ensures ParseString(buf, pos).next >= pos && ParseBinary(buf, pos).next >= pos
    ensures ParseStringPair(buf, pos).next >= pos
    ensures ParseU8(buf, pos).result.Ok? ==> ParseU8(buf, pos).next == pos + 1 <= |buf|
    ensures ParseU16(buf, pos).result.Ok? ==> ParseU16(buf, pos).next == pos + 2 <= |buf|
    ensures ParseU32(buf, pos).result.Ok? ==> ParseU32(buf, pos).next == pos + 4 <= |buf|
    ensures ParseVbi(buf, pos).result.Ok? ==> pos + 1 <= ParseVbi(buf, pos).next <= |buf|
    ensures ParseVbi(buf, pos).result.Ok? ==> ParseVbi(buf, pos).next <= pos + 4
    ensures ParseString(buf, pos).result.Ok? ==> ParseString(buf, pos).next <= |buf|
    ensures ParseBinary(buf, pos).result.Ok? ==> ParseBinary(buf, pos).next <= |buf|
    ensures ParseStringPair(buf, pos).result.Ok? ==> ParseStringPair(buf, pos).next <= |buf|
  {
    if ParseVbi(buf, pos).result.Ok? {
      ParseVbiIsVbi(buf, pos);
    }
  }

  /** A byte written anywhere in a buffer reads back, one byte on. */
  lemma ParseU8RoundTrip(prefix: seq<byte>, b: byte, rest: seq<byte>)
    ensures ParseU8(prefix + [b] + rest, |prefix|) == Step(Ok(b), |prefix| + 1)
  {
  }

  /** A Two Byte Integer read succeeds exactly when two bytes are left, yields
      them most significant first and moves past them; otherwise it is
      `IndexOutOfBounce` with the cursor kept. */
  lemma ParseU16Layout(buf: seq<byte>, pos: nat)
    ensures ParseU16(buf, pos)
         == if pos + 2 <= |buf| then Step(Ok(buf[pos] as int * 0x100 + buf[pos + 1] as int), pos + 2)
            else Step(Err(IndexOutOfBounce), pos)
  {
    if pos + 2 <= |buf| {
      assert buf[pos..pos + 2] == [buf[pos], buf[pos + 1]];
      BigEndian2(buf[pos], buf[pos + 1]);
    }
  }

  /** A Four Byte Integer read succeeds exactly when four bytes are left,
      yields them most significant first and moves past them; otherwise it is
      `IndexOutOfBounce` with the cursor kept. */
  lemma ParseU32Layout(buf: seq<byte>, pos: nat)
    ensures ParseU32(buf, pos)
         == if pos + 4 <= |buf| then
              Step(Ok(buf[pos] as int * 0x100_0000 + buf[pos + 1] as int * 0x1_0000
                      + buf[pos + 2] as int * 0x100 + buf[pos + 3] as int), pos + 4)
            else Step(Err(IndexOutOfBounce), pos)
  {
    if pos + 4 <= |buf| {
      assert buf[pos..pos + 4] == [buf[pos], buf[pos + 1], buf[pos + 2], buf[pos + 3]];
      BigEndian4(buf[pos], buf[pos + 1], buf[pos + 2], buf[pos + 3]);
    }
  }

  /** Too few bytes for a fixed-width read, or for the prefix or the data of a
      string or binary, is `IndexOutOfBounce`. */
  lemma ShortBufferGivesIndexOutOfBounce(buf: seq<byte>, pos: nat)
    ensures pos + 1 > |buf| ==> ParseU8(buf, pos).result == Err(IndexOutOfBounce)
    ensures pos + 2 > |buf| ==> ParseU16(buf, pos).result == Err(IndexOutOfBounce)
    ensures pos + 4 > |buf| ==> ParseU32(buf, pos).result == Err(IndexOutOfBounce)
    ensures pos + 2 > |buf| ==> ParseString(buf, pos).result == Err(IndexOutOfBounce)
    ensures pos + 2 > |buf| ==> ParseBinary(buf, pos).result == Err(IndexOutOfBounce)
    ensures pos + 2 <= |buf| && pos + 2 + BigEndian(buf[pos..pos + 2]) > |buf| ==>
              ParseString(buf, pos).result == Err(IndexOutOfBounce)
              && ParseBinary(buf, pos).result == Err(IndexOutOfBounce)
    ensures pos >= |buf| ==> ParseVbi(buf, pos).result == Err(IndexOutOfBounce)
  {
  }

  lemma {:induction false} ParseU16RoundTrip(prefix: seq<byte>, v: u16, rest: seq<byte>)
    ensures ParseU16(prefix + ToBigEndian2(v) + rest, |prefix|) == Step(Ok(v), |prefix| + 2)
  {
    var buf := prefix + ToBigEndian2(v) + rest;
    assert buf[|prefix|..|prefix| + 2] == ToBigEndian2(v);
    assert Pow256(2) == 0x1_0000;
    BigEndianOfToBigEndian(v, 2);
  }

  lemma {:induction false} ParseU32RoundTrip(prefix: seq<byte>, v: u32, rest: seq<byte>)
    ensures ParseU32(prefix + ToBigEndian4(v) + rest, |prefix|) == Step(Ok(v), |prefix| + 4)
  {
    var buf := prefix + ToBigEndian4(v) + rest;
    assert buf[|prefix|..|prefix| + 4] == ToBigEndian4(v);
    assert Pow256(4) == 0x1_0000_0000;
    BigEndianOfToBigEndian(v, 4);
  }

  /** The two-byte and four-byte encodings a writer puts on the wire. */
  function ToBigEndian2(v: u16): (s: seq<byte>)
    ensures |s| == 2
  {
    assert Pow256(2) == 0x1_0000;
    ToBigEndian(v, 2)
  }

  function ToBigEndian4(v: u32): (s: seq<byte>)
    ensures |s| == 4
  {
    assert Pow256(4) == 0x1_0000_0000;
    ToBigEndian(v, 4)
  }

  /** The span `VbiLength` finds is exactly a Variable Byte Integer. */
  lemma {:induction false} VbiLengthFromIsVbi(s: seq<byte>, i: nat)
    requires i <= 3
    requires forall j :: 0 <= j < i ==> j < |s| && Continues(s[j])
    ensures VbiLengthFrom(s, i).Ok? ==>
              VbiLengthFrom(s, i).value <= |s| && IsVbi(s[..VbiLengthFrom(s, i).value])
    ensures VbiLengthFrom(s, i).Err? && VbiLengthFrom(s, i).error == VariableByteIntegerError ==>
              4 <= |s| && forall j :: 0 <= j < 4 ==> Continues(s[j])
    ensures VbiLengthFrom(s, i).Err? && VbiLengthFrom(s, i).error != VariableByteIntegerError ==>
              VbiLengthFrom(s, i).error == IndexOutOfBounce && |s| < 4
              && forall j :: 0 <= j < |s| ==> Continues(s[j])
    decreases 3 - i
  {
    if i < |s| && Continues(s[i]) && i < 3 {
      VbiLengthFromIsVbi(s, i + 1);
    } else if i < |s| && !Continues(s[i]) {
      var w := s[..i + 1];
      assert forall j :: 0 <= j < i ==> Continues(w[j]);
    }
  }

  /** What `ParseVbi` accepts is a Variable Byte Integer, and its value. */
  lemma ParseVbiIsVbi(buf: seq<byte>, pos: nat)
    requires ParseVbi(buf, pos).result.Ok?
    ensures pos < ParseVbi(buf, pos).next <= |buf|
    ensures IsVbi(buf[pos..ParseVbi(buf, pos).next])
    ensures ParseVbi(buf, pos).result.value == VbiValue(buf[pos..ParseVbi(buf, pos).next])
    ensures ParseVbi(buf, pos).result.value <= VBI_MAX
  {
    var rest := buf[pos..];
    VbiLengthFromIsVbi(rest, 0);
    var n := VbiLength(rest).value;
    assert rest[..n] == buf[pos..pos + n];
    VbiValueAtMostMax(buf[pos..pos + n]);
  }

  /** Conversely, a Variable Byte Integer at `pos` is read whole. */
  lemma ParseVbiOfVbi(buf: seq<byte>, pos: nat, n: nat)
    requires pos + n <= |buf| && IsVbi(buf[pos..pos + n])
    ensures ParseVbi(buf, pos) == Step(Ok(VbiValue(buf[pos..pos + n])), pos + n)
  {
    var rest := buf[pos..];
    var w := buf[pos..pos + n];
    assert forall j :: 0 <= j < n ==> rest[j] == w[j];
    if n == 1 {
    } else if n == 2 {
      assert Continues(w[0]);
    } else if n == 3 {
      assert Continues(w[0]) && Continues(w[1]);
    } else {
      assert Continues(w[0]) && Continues(w[1]) && Continues(w[2]);
    }
  }

  /** `VariableByteIntegerError` exactly when four bytes all carry the
      continuation bit. */
  lemma ParseVbiMalformed(buf: seq<byte>, pos: nat)
    requires pos <= |buf|
    ensures ParseVbi(buf, pos).result == Err(VariableByteIntegerError) <==>
              pos + 4 <= |buf| && forall j :: pos <= j < pos + 4 ==> Continues(buf[j])
  {
    var rest := buf[pos..];
    VbiLengthFromIsVbi(rest, 0);
    if pos + 4 <= |buf| && forall j :: pos <= j < pos + 4 ==> Continues(buf[j]) {
      assert Continues(rest[0]) && Continues(rest[1]) && Continues(rest[2]) && Continues(rest[3]);
    }
    if ParseVbi(buf, pos).result == Err(VariableByteIntegerError) {
      assert forall j :: pos <= j < pos + 4 ==> buf[j] == rest[j - pos];
    }
  }

  /** Encoding a value and reading it back gives the value, and the cursor
      moves by the encoded length. */
  lemma ParseVbiRoundTrip(prefix: seq<byte>, v: nat, rest: seq<byte>)
    requires v <= VBI_MAX
    ensures ParseVbi(prefix + VbiEncode(v) + rest, |prefix|)
         == Step(Ok(v), |prefix| + VbiSize(v))
  {
    var e := VbiEncode(v);
    VbiEncodeCorrect(v);
    var buf := prefix + e + rest;
    assert buf[|prefix|..|prefix| + |e|] == e;
    ParseVbiOfVbi(buf, |prefix|, |e|);
  }

  /** A string read yields a view of exactly the `L` bytes after the prefix
      `L`, which are valid UTF-8, and moves the cursor by `2 + L`. */
  lemma ParseStringView(buf: seq<byte>, pos: nat)
    requires ParseString(buf, pos).result.Ok?
    ensures var s := ParseString(buf, pos).result.value;
      && pos + 2 <= |buf|
      && s.offset == pos + 2
      && s.len == BigEndian(buf[pos..pos + 2])
      && s.InBounds(buf)
      && ValidUtf8(s.Text(buf))
      && ParseString(buf, pos).next == pos + s.Len()
  {
  }

  /** A string fails with `Utf8Error` exactly when its bytes are present but
      are not valid UTF-8. */
  lemma ParseStringUtf8Error(buf: seq<byte>, pos: nat)
    requires pos + 2 <= |buf|
    ensures var l := BigEndian(buf[pos..pos + 2]);
      ParseString(buf, pos).result == Err(Utf8Error) <==>
        pos + 2 + l <= |buf| && !ValidUtf8(buf[pos + 2..pos + 2 + l])
  {
  }

  /** Writing a length prefix and the text and reading it back gives a view
      of that text, occupying `|text| + 2` bytes. */
  lemma {:induction false} ParseStringRoundTrip(prefix: seq<byte>, text: seq<byte>, rest: seq<byte>)
    requires |text| < 0x1_0000 && ValidUtf8(text)
    ensures var buf := prefix + ToBigEndian2(|text|) + text + rest;
      var s := EncodedString(|prefix| + 2, |text|);
      && ParseString(buf, |prefix|) == Step(Ok(s), |prefix| + 2 + |text|)
      && s.InBounds(buf) && s.Text(buf) == text
      && s.Len() == |text| + 2
  {
    var buf := prefix + ToBigEndian2(|text|) + text + rest;
    ParseU16RoundTrip(prefix, |text|, text + rest);
    assert prefix + ToBigEndian2(|text|) + (text + rest) == buf;
    var start := |prefix| + 2;
    assert ParseU16(buf, |prefix|) == Step(Ok(|text|), start);
    SliceOfConcat(prefix + ToBigEndian2(|text|), text, rest);
  }

  lemma {:induction false} ParseBinaryRoundTrip(prefix: seq<byte>, data: seq<byte>, rest: seq<byte>)
    requires |data| < 0x1_0000
    ensures var buf := prefix + ToBigEndian2(|data|) + data + rest;
      var b := BinaryData(|prefix| + 2, |data|);
      && ParseBinary(buf, |prefix|) == Step(Ok(b), |prefix| + 2 + |data|)
      && b.InBounds(buf) && b.Data(buf) == data
      && b.Len() == |data| + 2
  {
    var buf := prefix + ToBigEndian2(|data|) + data + rest;
    ParseU16RoundTrip(prefix, |data|, data + rest);
    assert prefix + ToBigEndian2(|data|) + (data + rest) == buf;
    var start := |prefix| + 2;
    assert ParseU16(buf, |prefix|) == Step(Ok(|data|), start);
    SliceOfConcat(prefix + ToBigEndian2(|data|), data, rest);
  }

  /** A topic filter written as a string followed by its options byte reads
      back as that string and that byte, and the two occupy the filter's
      `Len()` bytes. */
  lemma {:induction false} TopicFilterRoundTrip(prefix: seq<byte>, text: seq<byte>, options: byte,
                                                rest: seq<byte>)
    requires |text| < 0x1_0000 && ValidUtf8(text)
    ensures var buf := prefix + ToBigEndian2(|text|) + text + [options] + rest;
      var t := TopicFilter(EncodedString(|prefix| + 2, |text|), options);
      var afterFilter := ParseString(buf, |prefix|).next;
      && ParseString(buf, |prefix|).result == Ok(t.filter)
      && t.filter.Text(buf) == text
      && ParseU8(buf, afterFilter) == Step(Ok(options), |prefix| + t.Len())
      && t.Len() == |text| + 3
  {
    var head := prefix + ToBigEndian2(|text|) + text;
    var buf := head + [options] + rest;
    ParseStringRoundTrip(prefix, text, [options] + rest);
    assert prefix + ToBigEndian2(|text|) + text + ([options] + rest) == buf;
    ParseU8RoundTrip(head, options, rest);
  }

  lemma SliceOfConcat(a: seq<byte>, b: seq<byte>, c: seq<byte>)
    ensures (a + b + c)[|a|..|a| + |b|] == b
  {
  }

  /** A binary read moves the cursor past the data: by its `Len()`. */
  lemma ParseBinaryView(buf: seq<byte>, pos: nat)
    requires ParseBinary(buf, pos).result.Ok?
    ensures var b := ParseBinary(buf, pos).result.value;
      && b.offset == pos + 2
      && b.len == BigEndian(buf[pos..pos + 2])
      && b.InBounds(buf)
      && ParseBinary(buf, pos).next == pos + b.Len()
  {
  }

  /** A string pair is its name followed by its value; a failed name read is
      the pair's result, and the value is not read. */
  lemma ParseStringPairSequence(buf: seq<byte>, pos: nat)
    ensures var name := ParseString(buf, pos);
      name.result.Err? ==> ParseStringPair(buf, pos) == Step(Err(name.result.error), name.next)
    ensures var pair := ParseStringPair(buf, pos);
      pair.result.Ok? ==>
        && ParseString(buf, pos) == Step(Ok(pair.result.value.name), pos + pair.result.value.name.Len())
        && ParseString(buf, pos + pair.result.value.name.Len())
           == Step(Ok(pair.result.value.value), pair.next)
        && pair.next == pos + pair.result.value.Len()
  {
  }

  /** The as-written continuation test never fires, so the two-byte integer
      128 is taken to be one byte long. */
  lemma VbiLengthAsWrittenIsWrong()
    ensures VbiLengthAsWritten(0x80, 0x01, 0x00) == 1
    ensures VbiLength([0x80, 0x01]) == Ok(2)
  {
  }

  /** As written, `read_binary` leaves the cursor on the data, so the next
      read starts inside it; the corrected read moves past it. */
  lemma BinaryAsWrittenDoesNotAdvance()
    ensures ParseBinaryAsWritten([0x00, 0x01, 0xAB], 0) == Step(Ok(BinaryData(2, 1)), 2)
    ensures ParseBinary([0x00, 0x01, 0xAB], 0) == Step(Ok(BinaryData(2, 1)), 3)
  {
    var buf: seq<byte> := [0x00, 0x01, 0xAB];
    BigEndian2(0x00, 0x01);
    assert buf[0..2] == [0x00, 0x01];
  }

  /** In 16 bits the encoded size of a 65534- or 65535-byte string wraps to 0
      or 1, while reading it consumes 65536 or 65537 bytes. */
  lemma EncodedLenWraps()
    ensures EncodedLenAsWritten(65534) == 0 && EncodedString(0, 65534).Len() == 65536
    ensures EncodedLenAsWritten(65535) == 1 && EncodedString(0, 65535).Len() == 65537
  {
  }
}
