/** The CONNACK decoder `ConnackPacket` (src/packet/connack_packet.rs): the
    fixed header, which must name CONNACK, then the acknowledge flags, the
    connect reason code and the property section (section 3.2 of the MQTT
    Version 5.0 standard).

    As for CONNECT, every step has a pure specification over a snapshot of
    the packet's fields, and the `ConnackPacket` methods are proved to behave
    exactly as those say. */
module ConnackPackets {
  import opened Bytes
  import opened BufferReader
  import opened PacketTypes
  import opened Properties

  /** Capacity of the property list. */
  const MAX_PROPERTIES: nat := 18

  /** The fields of a `ConnackPacket`. */
  datatype ConnackState = ConnackState(
    fixedHeader: byte,
    remainLen: nat,
    ackFlags: byte,
    connectReasonCode: byte,
    propertyLen: nat,
    properties: seq<Property>)
  {
    /** The list within its capacity. */
    predicate Valid() {
      |properties| <= MAX_PROPERTIES
    }
  }

  /** What a decoding step yields: its result, the packet fields after it and
      the cursor position. */
  datatype ConnackStep<T> = ConnackStep(result: Result<T>, state: ConnackState, next: nat)

  // ---------------------------------------------------------------------------
  // Specification of the decoding steps
  // ---------------------------------------------------------------------------

  /** `decode_fixed_header`: the first byte into `fixedHeader`, the Variable
      Byte Integer after it into `remainLen`, and the kind of the first byte. */
  function FixedHeaderSpec(buf: seq<byte>, pos: nat, c: ConnackState): (s: ConnackStep<PacketType>)
    ensures s.state.properties == c.properties
  {
    var first := ParseU8(buf, pos);
    if first.result.Err? then ConnackStep(Err(first.result.error), c, first.next)
    else
      var c1 := c.(fixedHeader := first.result.value);
      var len := ParseVbi(buf, first.next);
      if len.result.Err? then ConnackStep(Err(len.result.error), c1, len.next)
      else ConnackStep(Ok(PacketTypeOf(first.result.value)), c1.(remainLen := len.result.value), len.next)
  }

  /** `decode_properties`: the declared length into `propertyLen`, then the
      property loop appending to `properties`. */
  function PropertiesSpec(buf: seq<byte>, pos: nat, c: ConnackState, decode: Decoder): (s: ConnackStep<()>)
    ensures c.Valid() ==> s.state.Valid()
  {
    var len := ParseVbi(buf, pos);
    if len.result.Err? then ConnackStep(Err(len.result.error), c, len.next)
    else
      var loop := PropertyLoop(buf, len.next, 0, len.result.value, MAX_PROPERTIES, decode, c.properties);
      ConnackStep(loop.result, c.(propertyLen := len.result.value, properties := loop.list), loop.next)
  }

  /** The variable header after the fixed header: acknowledge flags (u8),
      connect reason code (u8), then the property section. */
  function AckFlagsSpec(buf: seq<byte>, pos: nat, c: ConnackState, decode: Decoder): (s: ConnackStep<()>)
    ensures c.Valid() ==> s.state.Valid()
  {
    var flags := ParseU8(buf, pos);
    if flags.result.Err? then ConnackStep(Err(flags.result.error), c, flags.next)
    else ReasonCodeSpec(buf, flags.next, c.(ackFlags := flags.result.value), decode)
  }

  function ReasonCodeSpec(buf: seq<byte>, pos: nat, c: ConnackState, decode: Decoder): (s: ConnackStep<()>)
    ensures c.Valid() ==> s.state.Valid()
  {
    var code := ParseU8(buf, pos);
    if code.result.Err? then ConnackStep(Err(code.result.error), c, code.next)
    else PropertiesSpec(buf, code.next, c.(connectReasonCode := code.result.value), decode)
  }

  /** `decode_connack_packet`: the fixed header, which must name CONNACK,
      then acknowledge flags, reason code and properties. Any failure stops
      the decoding there. */
  function ConnackPacketSpec(buf: seq<byte>, pos: nat, c: ConnackState, decode: Decoder): (s: ConnackStep<()>)
    ensures c.Valid() ==> s.state.Valid()
  {
    var h := FixedHeaderSpec(buf, pos, c);
    if h.result.Err? then ConnackStep(Err(h.result.error), h.state, h.next)
    else if h.result.value != Connack then ConnackStep(Err(DecodingError), h.state, h.next)
    else AckFlagsSpec(buf, h.next, h.state, decode)
  }

  // ---------------------------------------------------------------------------
  // The packet
  // ---------------------------------------------------------------------------

  class ConnackPacket {
    var fixedHeader: byte
    var remainLen: nat
    var ackFlags: byte
    var connectReasonCode: byte
    var propertyLen: nat
    var properties: seq<Property>

    function Snapshot(): ConnackState
      reads this
    {
      ConnackState(fixedHeader, remainLen, ackFlags, connectReasonCode, propertyLen, properties)
    }

    /** A packet with the given fields; the list within its capacity. */
    constructor (fixedHeader: byte, remainLen: nat, ackFlags: byte, connectReasonCode: byte,
                 propertyLen: nat, properties: seq<Property>)
      requires |properties| <= MAX_PROPERTIES
      ensures Snapshot()
           == ConnackState(fixedHeader, remainLen, ackFlags, connectReasonCode, propertyLen, properties)
      ensures Snapshot().Valid()
    {
      this.fixedHeader := fixedHeader;
      this.remainLen := remainLen;
      this.ackFlags := ackFlags;
      this.connectReasonCode := connectReasonCode;
      this.propertyLen := propertyLen;
      this.properties := properties;
    }

    method DecodeFixedHeader(reader: BuffReader) returns (r: Result<PacketType>)
      modifies this, reader
      ensures ConnackStep(r, Snapshot(), reader.position)
           == FixedHeaderSpec(reader.buffer, old(reader.position), old(Snapshot()))
    {
      var firstByte := reader.ReadU8();
      if firstByte.Err? {
        return Err(firstByte.error);
      }
      fixedHeader := firstByte.value;
      var len := reader.ReadVariableByteInt();
      if len.Err? {
        return Err(len.error);
      }
      remainLen := len.value;
      return Ok(PacketTypeOf(fixedHeader));
    }

    method DecodeProperties(reader: BuffReader, decode: Decoder) returns (r: Result<()>)
      modifies this, reader
      ensures ConnackStep(r, Snapshot(), reader.position)
           == PropertiesSpec(reader.buffer, old(reader.position), old(Snapshot()), decode)
    {
      var len := reader.ReadVariableByteInt();
      if len.Err? {
        return Err(len.error);
      }
      propertyLen := len.value;
      var list;
      r, list := DecodePropertyList(reader, decode, propertyLen, MAX_PROPERTIES, properties);
      properties := list;
    }

    method DecodeConnackPacket(reader: BuffReader, decode: Decoder) returns (r: Result<()>)
      modifies this, reader
      ensures ConnackStep(r, Snapshot(), reader.position)
           == ConnackPacketSpec(reader.buffer, old(reader.position), old(Snapshot()), decode)
    {
      var kind := DecodeFixedHeader(reader);
      if kind.Err? {
        return Err(kind.error);
      }
      if kind.value != Connack {
        return Err(DecodingError);
      }
      ghost var goal := AckFlagsSpec(reader.buffer, reader.position, Snapshot(), decode);
      var flags := reader.ReadU8();
      if flags.Err? {
        return Err(flags.error);
      }
      ackFlags := flags.value;
      assert goal == ReasonCodeSpec(reader.buffer, reader.position, Snapshot(), decode);
      var code := reader.ReadU8();
      if code.Err? {
        return Err(code.error);
      }
      connectReasonCode := code.value;
      r := DecodeProperties(reader, decode);
    }

    /** `Packet::decode` for CONNACK: the whole packet decoder. */
    method Decode(reader: BuffReader, decode: Decoder) returns (r: Result<()>)
      modifies this, reader
      ensures ConnackStep(r, Snapshot(), reader.position)
           == ConnackPacketSpec(reader.buffer, old(reader.position), old(Snapshot()), decode)
    {
      r := DecodeConnackPacket(reader, decode);
    }
  }

  // ---------------------------------------------------------------------------
  // Properties of the decoder
  // ---------------------------------------------------------------------------

  /** A CONNACK decode succeeds only on a header byte whose high nibble is
      2; a header of any other kind stops the decoding right after the fixed
      header with `DecodingError`, nothing after it read or stored. */
  lemma ConnackRequiresConnackKind(buf: seq<byte>, pos: nat, c: ConnackState, decode: Decoder)
    ensures ConnackPacketSpec(buf, pos, c, decode).result.Ok? ==> pos < |buf| && buf[pos] & 0xF0 == 0x20
    ensures var h := FixedHeaderSpec(buf, pos, c);
      h.result.Ok? && h.result.value != Connack ==>
        ConnackPacketSpec(buf, pos, c, decode) == ConnackStep(Err(DecodingError), h.state, h.next)
  {
    if ConnackPacketSpec(buf, pos, c, decode).result.Ok? {
      PacketTypeOfHeader(buf[pos], Connack);
    }
  }

  /** A successful CONNACK, in wire order: the header byte, one Variable Byte
      Integer (the remaining length), the acknowledge flags byte, the reason
      code byte, and then a property section read as `PropertiesSpec` says. */
  lemma ConnackLayout(buf: seq<byte>, pos: nat, c: ConnackState, decode: Decoder)
    requires ConnackPacketSpec(buf, pos, c, decode).result.Ok?
    ensures var a := ParseVbi(buf, pos + 1).next;
      && pos + 1 < a && a + 2 <= |buf|
      && IsVbi(buf[pos + 1..a])
      && ConnackPacketSpec(buf, pos, c, decode)
         == PropertiesSpec(buf, a + 2, c.(fixedHeader := buf[pos], remainLen := VbiValue(buf[pos + 1..a]),
                                          ackFlags := buf[a], connectReasonCode := buf[a + 1]), decode)
  {
    ParseVbiIsVbi(buf, pos + 1);
    var a := ParseVbi(buf, pos + 1).next;
  }

  /** A successful property section is a Variable Byte Integer, stored in
      `propertyLen`, followed by properties lying back to back that fill
      exactly that many bytes; they are appended to `properties` in wire
      order, nothing else changes, and the cursor stands at the section's
      end. */
  lemma PropertiesLayout(buf: seq<byte>, pos: nat, c: ConnackState, decode: Decoder)
    requires PropertiesSpec(buf, pos, c, decode).result.Ok?
    ensures var s := PropertiesSpec(buf, pos, c, decode);
      var start := ParseVbi(buf, pos).next;
      && pos < start <= |buf|
      && IsVbi(buf[pos..start])
      && s.state.propertyLen == VbiValue(buf[pos..start])
      && |c.properties| <= |s.state.properties|
      && s.state.properties[..|c.properties|] == c.properties
      && PropertiesAt(buf, start, s.state.properties[|c.properties|..], decode)
      && Span(s.state.properties[|c.properties|..]) == s.state.propertyLen
      && s.next == start + s.state.propertyLen
      && s.state == c.(propertyLen := s.state.propertyLen, properties := s.state.properties)
  {
    ParseVbiIsVbi(buf, pos);
    var len := ParseVbi(buf, pos);
    PropertyLoopSound(buf, len.next, 0, len.result.value, MAX_PROPERTIES, decode, c.properties);
  }

  /** A successful CONNACK decode, with a decoder that keeps to the buffer,
      moves the cursor forward and never past the end of the buffer. */
  lemma ConnackInBounds(buf: seq<byte>, pos: nat, c: ConnackState, decode: Decoder)
    requires DecoderInBounds(decode, buf)
    requires ConnackPacketSpec(buf, pos, c, decode).result.Ok?
    ensures pos < ConnackPacketSpec(buf, pos, c, decode).next <= |buf|
  {
    ConnackLayout(buf, pos, c, decode);
    var a := ParseVbi(buf, pos + 1).next;
    var c1 := c.(fixedHeader := buf[pos], remainLen := VbiValue(buf[pos + 1..a]),
                 ackFlags := buf[a], connectReasonCode := buf[a + 1]);
    PropertiesInBounds(buf, a + 2, c1, decode);
  }

  /** A successful property section, with a decoder that keeps to the
      buffer, ends after its length byte and inside the buffer. */
  lemma PropertiesInBounds(buf: seq<byte>, pos: nat, c: ConnackState, decode: Decoder)
    requires DecoderInBounds(decode, buf)
    requires PropertiesSpec(buf, pos, c, decode).result.Ok?
    ensures pos < PropertiesSpec(buf, pos, c, decode).next <= |buf|
  {
    var len := ParseVbi(buf, pos);
    ReadsStayInBounds(buf, pos);
    PropertyLoopInBounds(buf, len.next, 0, len.result.value, MAX_PROPERTIES, decode, c.properties);
  }

  /** Conversely, a CONNACK header followed by flags, a reason code and a
      property section filled exactly by properties with room in the list is
      read whole. */
  lemma ConnackComplete(buf: seq<byte>, pos: nat, c: ConnackState, decode: Decoder,
                        remainLen: nat, a: nat, props: seq<Property>, q: nat)
    requires pos < |buf| && buf[pos] & 0xF0 == 0x20
    requires ParseVbi(buf, pos + 1) == Step(Ok(remainLen), a)
    requires a + 2 <= |buf|
    requires ParseVbi(buf, a + 2) == Step(Ok(Span(props)), q)
    requires PropertiesAt(buf, q, props, decode)
    requires |c.properties| + |props| <= MAX_PROPERTIES
    ensures ConnackPacketSpec(buf, pos, c, decode)
         == ConnackStep(Ok(()),
                        ConnackState(buf[pos], remainLen, buf[a], buf[a + 1], Span(props), c.properties + props),
                        q + Span(props))
  {
    PacketTypeOfHeader(buf[pos], Connack);
    PropertyLoopComplete(buf, q, 0, Span(props), MAX_PROPERTIES, decode, c.properties, props);
  }

  /** A CONNACK accepting the connection with no properties. */
  const EXAMPLE_CONNACK: seq<byte> := [0x20, 0x03, 0x00, 0x00, 0x00]

  /** It decodes whole: header 0x20, remaining length 3, flags 0, reason code
      0 (success), property length 0 and no property added. */
  lemma ExampleConnackDecodes(c: ConnackState, decode: Decoder)
    ensures ConnackPacketSpec(EXAMPLE_CONNACK, 0, c, decode)
         == ConnackStep(Ok(()), c.(fixedHeader := 0x20, remainLen := 3, ackFlags := 0,
                                   connectReasonCode := 0, propertyLen := 0), 5)
  {
    var buf := EXAMPLE_CONNACK;
    ParseVbiOfVbi(buf, 1, 1);
    ParseVbiOfVbi(buf, 4, 1);
    PropertyLoopEmpty(buf, 5, MAX_PROPERTIES, decode, c.properties);
  }
}
