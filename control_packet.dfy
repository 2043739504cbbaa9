/** The CONNECT decoder `ControlPacket` (src/packet/control_packet.rs):
    the fixed header, the variable header fields in wire order, the property
    section, and the payload gated by the connect-flag bits (section 3.1 of
    the MQTT Version 5.0 standard), plus the header-byte helpers `addPacketType`
    and `addFlags` (section 2.1).

    Every decoding step has a pure specification over a `Connect` snapshot of
    the packet's fields; it gives the result, the fields as they then stand
    (also after a failure part-way) and the cursor position. The
    `ControlPacket` methods are proved to behave exactly as those say. */
module ControlPackets {
  import opened Bytes
  import opened BufferReader
  import opened PacketTypes
  import opened Properties

  /** Capacities of the two property lists. */
  const MAX_PROPERTIES: nat := 18
  const MAX_WILL_PROPERTIES: nat := 7

  /** Connect-flag bits (section 3.1.2.3). */
  const WILL_FLAG: byte := 0x04
  const PASSWORD_FLAG: byte := 0x40
  const USERNAME_FLAG: byte := 0x80

  /** A flag bit is set: the masked value is non-zero. */
  predicate FlagSet(flags: byte, mask: byte) {
    flags & mask != 0
  }

  /** The fields of a `ControlPacket`. */
  datatype ConnectState = ConnectState(
    fixedHeader: byte,
    remainLen: nat,
    packetIdentifier: u16,
    protocolNameLen: u16,
    protocolName: u32,
    protocolVersion: byte,
    connectFlags: byte,
    keepAlive: u16,
    propertyLen: nat,
    properties: seq<Property>,
    clientId: EncodedString,
    willPropertyLen: nat,
    willProperties: seq<Property>,
    willTopic: EncodedString,
    willPayload: BinaryData,
    username: EncodedString,
    password: BinaryData)
  {
    /** Both lists within their capacities. */
    predicate Valid() {
      |properties| <= MAX_PROPERTIES && |willProperties| <= MAX_WILL_PROPERTIES
    }

    /** Every string and binary view the packet holds lies inside `buf`. */
    predicate ViewsInBounds(buf: seq<byte>) {
      && clientId.InBounds(buf) && willTopic.InBounds(buf) && willPayload.InBounds(buf)
      && username.InBounds(buf) && password.InBounds(buf)
    }
  }

  /** `ControlPacket::clean`: protocol version 5, every other number 0, empty
      strings and binary data, and the given lists. */
  function CleanConnect(properties: seq<Property>, willProperties: seq<Property>): ConnectState {
    ConnectState(0x00, 0, 0, 0, 0, 5, 0, 0, 0, properties, EmptyString(), 0, willProperties,
            EmptyString(), EmptyBinary(), EmptyString(), EmptyBinary())
  }

  /** What a decoding step yields: its result, the packet fields after it and
      the cursor position. */
  datatype ConnectStep<T> = ConnectStep(result: Result<T>, state: ConnectState, next: nat)

  // ---------------------------------------------------------------------------
  // Header-byte helpers
  // ---------------------------------------------------------------------------

  /** The header byte after `addPacketType(t)`: its flags kept, its kind `t`. */
  function WithPacketType(header: byte, t: PacketType): (h: byte)
    ensures h & 0x0F == header & 0x0F
    ensures PacketTypeOf(h) == t
  {
    var h := (header & 0x0F) | HeaderBits(t);
    PacketTypeOfHeader(h, t);
    h
  }

  /** The PUBLISH flags of section 2.1.3: DUP is bit 3, QoS 1 is bit 1, QoS 2
      is bit 2, RETAIN is bit 0. Any other QoS value sets no QoS bit. */
  function PublishFlags(dup: bool, qos: byte, retain: bool): (f: byte)
    ensures f & 0xF0 == 0
    ensures (f & 0x08 != 0) == dup
    ensures (f & 0x04 != 0) == (qos == 2)
    ensures (f & 0x02 != 0) == (qos == 1)
    ensures (f & 0x01 != 0) == retain
  {
    (if dup then 0x08 else 0x00) | (if qos == 1 then 0x02 else 0x00)
    | (if qos == 2 then 0x04 else 0x00) | (if retain then 0x01 else 0x00)
  }

  /** The header byte after `addFlags`: unchanged unless the packet is a
      PUBLISH; for a PUBLISH the kind is kept and the flags replaced. */
  function WithFlags(header: byte, dup: bool, qos: byte, retain: bool): (h: byte)
    ensures PacketTypeOf(header) != Publish ==> h == header
    ensures PacketTypeOf(header) == Publish ==> PacketTypeOf(h) == Publish
    ensures PacketTypeOf(header) == Publish ==> h & 0x0F == PublishFlags(dup, qos, retain)
  {
    PacketTypeOfHeader(header, Publish);
    if header & 0xF0 != 0x30 then header
    else
      var h := (header & 0xF0) | PublishFlags(dup, qos, retain);
      PacketTypeOfHeader(h, Publish);
      h
  }

  // ---------------------------------------------------------------------------
  // Specification of the decoding steps
  // ---------------------------------------------------------------------------

  /** `decode_fixed_header`: the first byte into `fixedHeader`, the Variable
      Byte Integer after it into `remainLen`, and the kind of the first byte. */
  function FixedHeaderSpec(buf: seq<byte>, pos: nat, c: ConnectState): (s: ConnectStep<PacketType>)
    ensures s.state.properties == c.properties && s.state.willProperties == c.willProperties
  {
    var first := ParseU8(buf, pos);
    if first.result.Err? then ConnectStep(Err(first.result.error), c, first.next)
    else
      var c1 := c.(fixedHeader := first.result.value);
      var len := ParseVbi(buf, first.next);
      if len.result.Err? then ConnectStep(Err(len.result.error), c1, len.next)
      else ConnectStep(Ok(PacketTypeOf(first.result.value)), c1.(remainLen := len.result.value), len.next)
  }

  /** The variable header fields of `decode_control_packet`, in wire order:
      `packetIdentifier` cleared, then protocol name length (u16), protocol
      name (u32), protocol version (u8), connect flags (u8), keep alive (u16). */
  function VariableHeaderSpec(buf: seq<byte>, pos: nat, c: ConnectState): (s: ConnectStep<()>)
    ensures s.state.properties == c.properties && s.state.willProperties == c.willProperties
  {
    ProtocolNameLenSpec(buf, pos, c.(packetIdentifier := 0))
  }

  function ProtocolNameLenSpec(buf: seq<byte>, pos: nat, c: ConnectState): (s: ConnectStep<()>)
    ensures s.state.properties == c.properties && s.state.willProperties == c.willProperties
  {
    var nameLen := ParseU16(buf, pos);
    if nameLen.result.Err? then ConnectStep(Err(nameLen.result.error), c, nameLen.next)
    else ProtocolNameSpec(buf, nameLen.next, c.(protocolNameLen := nameLen.result.value))
  }

  function ProtocolNameSpec(buf: seq<byte>, pos: nat, c: ConnectState): (s: ConnectStep<()>)
    ensures s.state.properties == c.properties && s.state.willProperties == c.willProperties
  {
    var name := ParseU32(buf, pos);
    if name.result.Err? then ConnectStep(Err(name.result.error), c, name.next)
    else ProtocolVersionSpec(buf, name.next, c.(protocolName := name.result.value))
  }

  function ProtocolVersionSpec(buf: seq<byte>, pos: nat, c: ConnectState): (s: ConnectStep<()>)
    ensures s.state.properties == c.properties && s.state.willProperties == c.willProperties
  {
    var version := ParseU8(buf, pos);
    if version.result.Err? then ConnectStep(Err(version.result.error), c, version.next)
    else ConnectFlagsSpec(buf, version.next, c.(protocolVersion := version.result.value))
  }

  function ConnectFlagsSpec(buf: seq<byte>, pos: nat, c: ConnectState): (s: ConnectStep<()>)
    ensures s.state.properties == c.properties && s.state.willProperties == c.willProperties
  {
    var flags := ParseU8(buf, pos);
    if flags.result.Err? then ConnectStep(Err(flags.result.error), c, flags.next)
    else KeepAliveSpec(buf, flags.next, c.(connectFlags := flags.result.value))
  }

  function KeepAliveSpec(buf: seq<byte>, pos: nat, c: ConnectState): (s: ConnectStep<()>)
    ensures s.state.properties == c.properties && s.state.willProperties == c.willProperties
  {
    var keepAlive := ParseU16(buf, pos);
    if keepAlive.result.Err? then ConnectStep(Err(keepAlive.result.error), c, keepAlive.next)
    else ConnectStep(Ok(()), c.(keepAlive := keepAlive.result.value), keepAlive.next)
  }

  /** `decode_properties`: the declared length into `propertyLen`, then the
      property loop appending to `properties`. */
  function PropertiesSpec(buf: seq<byte>, pos: nat, c: ConnectState, decode: Decoder): (s: ConnectStep<()>)
    ensures |c.properties| <= MAX_PROPERTIES ==> |s.state.properties| <= MAX_PROPERTIES
    ensures s.state.willProperties == c.willProperties
  {
    var len := ParseVbi(buf, pos);
    if len.result.Err? then ConnectStep(Err(len.result.error), c, len.next)
    else
      var c1 := c.(propertyLen := len.result.value);
      var loop := PropertyLoop(buf, len.next, 0, len.result.value, MAX_PROPERTIES, decode, c.properties);
      ConnectStep(loop.result, c1.(properties := loop.list), loop.next)
  }

  /** `decode_will_properties`: like `decode_properties`, into
      `willProperties`; the declared length is not kept. */
  function WillPropertiesSpec(buf: seq<byte>, pos: nat, c: ConnectState, decode: Decoder): (s: ConnectStep<()>)
    ensures |c.willProperties| <= MAX_WILL_PROPERTIES ==> |s.state.willProperties| <= MAX_WILL_PROPERTIES
    ensures s.state == c.(willProperties := s.state.willProperties)
  {
    var len := ParseVbi(buf, pos);
    if len.result.Err? then ConnectStep(Err(len.result.error), c, len.next)
    else
      var loop := PropertyLoop(buf, len.next, 0, len.result.value, MAX_WILL_PROPERTIES, decode,
                               c.willProperties);
      ConnectStep(loop.result, c.(willProperties := loop.list), loop.next)
  }

  /** The will section of the payload: will properties, will topic (string),
      will payload (binary data). */
  function WillSpec(buf: seq<byte>, pos: nat, c: ConnectState, decode: Decoder): (s: ConnectStep<()>)
    ensures |c.willProperties| <= MAX_WILL_PROPERTIES ==> |s.state.willProperties| <= MAX_WILL_PROPERTIES
    ensures s.state == c.(willProperties := s.state.willProperties, willTopic := s.state.willTopic,
                          willPayload := s.state.willPayload)
  {
    var props := WillPropertiesSpec(buf, pos, c, decode);
    if props.result.Err? then props
    else
      var topic := ParseString(buf, props.next);
      if topic.result.Err? then ConnectStep(Err(topic.result.error), props.state, topic.next)
      else
        var c1 := props.state.(willTopic := topic.result.value);
        var payload := ParseBinary(buf, topic.next);
        if payload.result.Err? then ConnectStep(Err(payload.result.error), c1, payload.next)
        else ConnectStep(Ok(()), c1.(willPayload := payload.result.value), payload.next)
  }

  /** The user name read changes no field but `username`. */
  function UsernameSpec(buf: seq<byte>, pos: nat, c: ConnectState): (s: ConnectStep<()>)
    ensures s.state == c.(username := s.state.username)
  {
    var name := ParseString(buf, pos);
    if name.result.Err? then ConnectStep(Err(name.result.error), c, name.next)
    else ConnectStep(Ok(()), c.(username := name.result.value), name.next)
  }

  /** The password read changes no field but `password`. */
  function PasswordSpec(buf: seq<byte>, pos: nat, c: ConnectState): (s: ConnectStep<()>)
    ensures s.state == c.(password := s.state.password)
  {
    var word := ParseBinary(buf, pos);
    if word.result.Err? then ConnectStep(Err(word.result.error), c, word.next)
    else ConnectStep(Ok(()), c.(password := word.result.value), word.next)
  }

  /** `decode_payload`: the client identifier, then the will section if the
      Will flag is set, the user name if the User Name flag is set and the
      password if the Password flag is set. */
  function PayloadSpec(buf: seq<byte>, pos: nat, c: ConnectState, decode: Decoder): (s: ConnectStep<()>)
    ensures |c.willProperties| <= MAX_WILL_PROPERTIES ==> |s.state.willProperties| <= MAX_WILL_PROPERTIES
    ensures s.state.properties == c.properties
  {
    var id := ParseString(buf, pos);
    if id.result.Err? then ConnectStep(Err(id.result.error), c, id.next)
    else
      var c1 := c.(clientId := id.result.value);
      var will := if FlagSet(c.connectFlags, WILL_FLAG) then WillSpec(buf, id.next, c1, decode)
                  else ConnectStep(Ok(()), c1, id.next);
      if will.result.Err? then will
      else
        var user := if FlagSet(c.connectFlags, USERNAME_FLAG) then UsernameSpec(buf, will.next, will.state)
                    else ConnectStep(Ok(()), will.state, will.next);
        if user.result.Err? then user
        else if FlagSet(c.connectFlags, PASSWORD_FLAG) then PasswordSpec(buf, user.next, user.state)
        else user
  }

  /** `decode_control_packet`: the fixed header, which must name CONNECT,
      then the variable header, the properties and the payload. Any failure
      stops the decoding there. */
  function ControlPacketSpec(buf: seq<byte>, pos: nat, c: ConnectState, decode: Decoder): (s: ConnectStep<()>)
    ensures c.Valid() ==> s.state.Valid()
  {
    var h := FixedHeaderSpec(buf, pos, c);
    if h.result.Err? then ConnectStep(Err(h.result.error), h.state, h.next)
    else if h.result.value != Connect then ConnectStep(Err(DecodingError), h.state, h.next)
    else
      var v := VariableHeaderSpec(buf, h.next, h.state);
      if v.result.Err? then v
      else
        var p := PropertiesSpec(buf, v.next, v.state, decode);
        if p.result.Err? then p
        else PayloadSpec(buf, p.next, p.state, decode)
  }

  // ---------------------------------------------------------------------------
  // The packet
  // ---------------------------------------------------------------------------

  class ControlPacket {
    var fixedHeader: byte
    var remainLen: nat
    var packetIdentifier: u16
    var protocolNameLen: u16
    var protocolName: u32
    var protocolVersion: byte
    var connectFlags: byte
    var keepAlive: u16
    var propertyLen: nat
    var properties: seq<Property>
    var clientId: EncodedString
    var willPropertyLen: nat
    var willProperties: seq<Property>
    var willTopic: EncodedString
    var willPayload: BinaryData
    var username: EncodedString
    var password: BinaryData

    function Snapshot(): ConnectState
      reads this
    {
      ConnectState(fixedHeader, remainLen, packetIdentifier, protocolNameLen, protocolName,
              protocolVersion, connectFlags, keepAlive, propertyLen, properties, clientId,
              willPropertyLen, willProperties, willTopic, willPayload, username, password)
    }

    /** `ControlPacket::clean`; the lists come in within their capacities. */
    constructor Clean(properties: seq<Property>, willProperties: seq<Property>)
      requires |properties| <= MAX_PROPERTIES && |willProperties| <= MAX_WILL_PROPERTIES
      ensures Snapshot() == CleanConnect(properties, willProperties)
      ensures Snapshot().Valid()
    {
      fixedHeader := 0x00;
      remainLen := 0;
      packetIdentifier := 0;
      protocolNameLen := 0;
      protocolName := 0;
      protocolVersion := 5;
      connectFlags := 0;
      keepAlive := 0;
      propertyLen := 0;
      this.properties := properties;
      clientId := EmptyString();
      willPropertyLen := 0;
      this.willProperties := willProperties;
      willTopic := EmptyString();
      willPayload := EmptyBinary();
      username := EmptyString();
      password := EmptyBinary();
    }

    method AddPacketType(newPacketType: PacketType)
      modifies this
      ensures fixedHeader == WithPacketType(old(fixedHeader), newPacketType)
      ensures Snapshot() == old(Snapshot()).(fixedHeader := fixedHeader)
    {
      fixedHeader := fixedHeader & 0x0F;
      fixedHeader := fixedHeader | HeaderBits(newPacketType);
    }

    method AddFlags(dup: bool, qos: byte, retain: bool)
      modifies this
      ensures fixedHeader == WithFlags(old(fixedHeader), dup, qos, retain)
      ensures Snapshot() == old(Snapshot()).(fixedHeader := fixedHeader)
    {
      var curType := fixedHeader & 0xF0;
      if curType != 0x30 {
        return;
      }
      var flags: byte := 0x00;
      if dup {
        flags := flags | 0x08;
      }
      if qos == 1 {
        flags := flags | 0x02;
      }
      if qos == 2 {
        flags := flags | 0x04;
      }
      if retain {
        flags := flags | 0x01;
      }
      fixedHeader := curType | flags;
    }

    method DecodeFixedHeader(reader: BuffReader) returns (r: Result<PacketType>)
      modifies this, reader
      ensures ConnectStep(r, Snapshot(), reader.position)
           == FixedHeaderSpec(reader.buffer, old(reader.position), old(Snapshot()))
    {
      var firstByte := reader.ReadU8();
      if firstByte.Err? {
        return Err(firstByte.error);
      }
      fixedHeader := firstByte.value;
      var len := reader.ReadVariableByteInt();
      if len.Err? {
        return Err(len.error);
      }
      remainLen := len.value;
      return Ok(PacketTypeOf(fixedHeader));
    }

    method DecodeProperties(reader: BuffReader, decode: Decoder) returns (r: Result<()>)
      modifies this, reader
      ensures ConnectStep(r, Snapshot(), reader.position)
           == PropertiesSpec(reader.buffer, old(reader.position), old(Snapshot()), decode)
    {
      var len := reader.ReadVariableByteInt();
      if len.Err? {
        return Err(len.error);
      }
      propertyLen := len.value;
      var list;
      r, list := DecodePropertyList(reader, decode, propertyLen, MAX_PROPERTIES, properties);
      properties := list;
    }

    method DecodeWillProperties(reader: BuffReader, decode: Decoder) returns (r: Result<()>)
      modifies this, reader
      ensures ConnectStep(r, Snapshot(), reader.position)
           == WillPropertiesSpec(reader.buffer, old(reader.position), old(Snapshot()), decode)
    {
      var willPropertyLen := reader.ReadVariableByteInt();
      if willPropertyLen.Err? {
        return Err(willPropertyLen.error);
      }
      var list;
      r, list := DecodePropertyList(reader, decode, willPropertyLen.value, MAX_WILL_PROPERTIES,
                                    willProperties);
      willProperties := list;
    }

    /** The will section of `decode_payload`. */
    method DecodeWill(reader: BuffReader, decode: Decoder) returns (r: Result<()>)
      modifies this, reader
      ensures ConnectStep(r, Snapshot(), reader.position)
           == WillSpec(reader.buffer, old(reader.position), old(Snapshot()), decode)
    {
      r := DecodeWillProperties(reader, decode);
      if r.Err? {
        return;
      }
      var topic := reader.ReadString();
      if topic.Err? {
        return Err(topic.error);
      }
      willTopic := topic.value;
      var payload := reader.ReadBinary();
      if payload.Err? {
        return Err(payload.error);
      }
      willPayload := payload.value;
      r := Ok(());
    }

    method DecodeUsername(reader: BuffReader) returns (r: Result<()>)
      modifies this, reader
      ensures ConnectStep(r, Snapshot(), reader.position)
           == UsernameSpec(reader.buffer, old(reader.position), old(Snapshot()))
    {
      var name := reader.ReadString();
      if name.Err? {
        return Err(name.error);
      }
      username := name.value;
      return Ok(());
    }

    method DecodePassword(reader: BuffReader) returns (r: Result<()>)
      modifies this, reader
      ensures ConnectStep(r, Snapshot(), reader.position)
           == PasswordSpec(reader.buffer, old(reader.position), old(Snapshot()))
    {
      var word := reader.ReadBinary();
      if word.Err? {
        return Err(word.error);
      }
      password := word.value;
      return Ok(());
    }

    method DecodePayload(reader: BuffReader, decode: Decoder) returns (r: Result<()>)
      modifies this, reader
      ensures ConnectStep(r, Snapshot(), reader.position)
           == PayloadSpec(reader.buffer, old(reader.position), old(Snapshot()), decode)
    {
      var id := reader.ReadString();
      if id.Err? {
        return Err(id.error);
      }
      clientId := id.value;
      r := Ok(());
      if connectFlags & WILL_FLAG != 0 {
        r := DecodeWill(reader, decode);
        if r.Err? {
          return;
        }
      }
      if connectFlags & USERNAME_FLAG != 0 {
        r := DecodeUsername(reader);
        if r.Err? {
          return;
        }
      }
      if connectFlags & PASSWORD_FLAG != 0 {
        r := DecodePassword(reader);
      }
    }

    /** The variable header fields of `decode_control_packet`. */
    method DecodeVariableHeader(reader: BuffReader) returns (r: Result<()>)
      modifies this, reader
      ensures ConnectStep(r, Snapshot(), reader.position)
           == VariableHeaderSpec(reader.buffer, old(reader.position), old(Snapshot()))
    {
      ghost var goal := VariableHeaderSpec(reader.buffer, reader.position, Snapshot());
      packetIdentifier := 0;
      assert goal == ProtocolNameLenSpec(reader.buffer, reader.position, Snapshot());
      var nameLen := reader.ReadU16();
      if nameLen.Err? {
        return Err(nameLen.error);
      }
      protocolNameLen := nameLen.value;
      assert goal == ProtocolNameSpec(reader.buffer, reader.position, Snapshot());
      var name := reader.ReadU32();
      if name.Err? {
        return Err(name.error);
      }
      protocolName := name.value;
      assert goal == ProtocolVersionSpec(reader.buffer, reader.position, Snapshot());
      var version := reader.ReadU8();
      if version.Err? {
        return Err(version.error);
      }
      protocolVersion := version.value;
      assert goal == ConnectFlagsSpec(reader.buffer, reader.position, Snapshot());
      var flags := reader.ReadU8();
      if flags.Err? {
        return Err(flags.error);
      }
      connectFlags := flags.value;
      assert goal == KeepAliveSpec(reader.buffer, reader.position, Snapshot());
      var keepAliveValue := reader.ReadU16();
      if keepAliveValue.Err? {
        return Err(keepAliveValue.error);
      }
      keepAlive := keepAliveValue.value;
      return Ok(());
    }

    method DecodeControlPacket(reader: BuffReader, decode: Decoder) returns (r: Result<()>)
      modifies this, reader
      ensures ConnectStep(r, Snapshot(), reader.position)
           == ControlPacketSpec(reader.buffer, old(reader.position), old(Snapshot()), decode)
    {
      var kind := DecodeFixedHeader(reader);
      if kind.Err? {
        return Err(kind.error);
      }
      if kind.value != Connect {
        return Err(DecodingError);
      }
      r := DecodeVariableHeader(reader);
      if r.Err? {
        return;
      }
      r := DecodeProperties(reader, decode);
      if r.Err? {
        return;
      }
      r := DecodePayload(reader, decode);
    }
  }

  // ---------------------------------------------------------------------------
  // Properties of the decoder
  // ---------------------------------------------------------------------------

  /** A successful fixed header is the first byte followed by one Variable
      Byte Integer: `fixedHeader` gets that byte, `remainLen` the integer's
      value, the kind is that of the byte's high nibble, nothing else
      changes and the cursor stands just after the integer. */
  lemma FixedHeaderLayout(buf: seq<byte>, pos: nat, c: ConnectState)
    requires FixedHeaderSpec(buf, pos, c).result.Ok?
    ensures var s := FixedHeaderSpec(buf, pos, c);
      && pos + 1 < s.next <= |buf|
      && IsVbi(buf[pos + 1..s.next])
      && s.state == c.(fixedHeader := buf[pos], remainLen := VbiValue(buf[pos + 1..s.next]))
      && s.result.value == PacketTypeOf(buf[pos])
  {
    ParseVbiIsVbi(buf, pos + 1);
  }

  /** Without a byte there is no header; a malformed length after the byte
      keeps the byte and fails with the integer's error. */
  lemma FixedHeaderErrors(buf: seq<byte>, pos: nat, c: ConnectState)
    ensures pos >= |buf| ==> FixedHeaderSpec(buf, pos, c) == ConnectStep(Err(IndexOutOfBounce), c, pos)
    ensures pos < |buf| && ParseVbi(buf, pos + 1).result.Err? ==>
              (FixedHeaderSpec(buf, pos, c)
               == ConnectStep(Err(ParseVbi(buf, pos + 1).result.error), c.(fixedHeader := buf[pos]),
                              ParseVbi(buf, pos + 1).next))
  {
  }

  /** The variable header occupies ten bytes at fixed offsets: protocol name
      length at 0-1, protocol name at 2-5, version at 6, connect flags at 7,
      keep alive at 8-9, all most significant byte first. */
  lemma VariableHeaderLayout(buf: seq<byte>, pos: nat, c: ConnectState)
    requires pos + 10 <= |buf|
    ensures VariableHeaderSpec(buf, pos, c)
         == ConnectStep(Ok(()),
                        c.(packetIdentifier := 0,
                           protocolNameLen := buf[pos] as int * 0x100 + buf[pos + 1] as int,
                           protocolName := buf[pos + 2] as int * 0x100_0000 + buf[pos + 3] as int * 0x1_0000
                                           + buf[pos + 4] as int * 0x100 + buf[pos + 5] as int,
                           protocolVersion := buf[pos + 6],
                           connectFlags := buf[pos + 7],
                           keepAlive := buf[pos + 8] as int * 0x100 + buf[pos + 9] as int),
                        pos + 10)
  {
    var c1 := c.(packetIdentifier := 0);
    var c2 := c1.(protocolNameLen := buf[pos] as int * 0x100 + buf[pos + 1] as int);
    var c3 := c2.(protocolName := buf[pos + 2] as int * 0x100_0000 + buf[pos + 3] as int * 0x1_0000
                                  + buf[pos + 4] as int * 0x100 + buf[pos + 5] as int);
    var c4 := c3.(protocolVersion := buf[pos + 6]);
    var c5 := c4.(connectFlags := buf[pos + 7]);
    var c6 := c5.(keepAlive := buf[pos + 8] as int * 0x100 + buf[pos + 9] as int);
    assert ProtocolNameLenSpec(buf, pos, c1) == ProtocolNameSpec(buf, pos + 2, c2) by {
      ParseU16Layout(buf, pos);
    }
    assert ProtocolNameSpec(buf, pos + 2, c2) == ProtocolVersionSpec(buf, pos + 6, c3) by {
      ParseU32Layout(buf, pos + 2);
    }
    assert ProtocolVersionSpec(buf, pos + 6, c3) == ConnectFlagsSpec(buf, pos + 7, c4);
    assert ConnectFlagsSpec(buf, pos + 7, c4) == KeepAliveSpec(buf, pos + 8, c5);
    assert KeepAliveSpec(buf, pos + 8, c5) == ConnectStep(Ok(()), c6, pos + 10) by {
      ParseU16Layout(buf, pos + 8);
    }
  }

  /** With fewer than ten bytes left the variable header fails with
      `IndexOutOfBounce`. */
  lemma VariableHeaderShort(buf: seq<byte>, pos: nat, c: ConnectState)
    requires pos + 10 > |buf|
    ensures VariableHeaderSpec(buf, pos, c).result == Err(IndexOutOfBounce)
  {
    ParseU16Layout(buf, pos);
    if pos + 2 <= |buf| {
      ParseU32Layout(buf, pos + 2);
      if pos + 7 <= |buf| {
        ParseU16Layout(buf, pos + 8);
      }
    }
  }

  /** A CONNECT decode succeeds only on a header byte whose high nibble is
      1; a header of any other kind stops the decoding right after the fixed
      header with `DecodingError`, nothing after it read or stored. */
  lemma ConnectRequiresConnectKind(buf: seq<byte>, pos: nat, c: ConnectState, decode: Decoder)
    ensures ControlPacketSpec(buf, pos, c, decode).result.Ok? ==> pos < |buf| && buf[pos] & 0xF0 == 0x10
    ensures var h := FixedHeaderSpec(buf, pos, c);
      h.result.Ok? && h.result.value != Connect ==>
        ControlPacketSpec(buf, pos, c, decode) == ConnectStep(Err(DecodingError), h.state, h.next)
  {
    if ControlPacketSpec(buf, pos, c, decode).result.Ok? {
      FixedHeaderLayout(buf, pos, c);
      PacketTypeOfHeader(buf[pos], Connect);
    }
  }

  /** Conversely, a CONNECT header byte, a remaining length, ten bytes of
      variable header and a property section filled exactly by properties
      with room in the list are read whole, every field as encoded; the
      decoding then goes on with the payload just after the section. */
  lemma ConnectComplete(buf: seq<byte>, pos: nat, c: ConnectState, decode: Decoder,
                        remainLen: nat, a: nat, props: seq<Property>, q: nat)
    requires pos < |buf| && buf[pos] & 0xF0 == 0x10
    requires ParseVbi(buf, pos + 1) == Step(Ok(remainLen), a)
    requires a + 10 <= |buf|
    requires ParseVbi(buf, a + 10) == Step(Ok(Span(props)), q)
    requires PropertiesAt(buf, q, props, decode)
    requires |c.properties| + |props| <= MAX_PROPERTIES
    ensures var h := FixedHeaderSpec(buf, pos, c);
      var v := VariableHeaderSpec(buf, a, h.state);
      var p := PropertiesSpec(buf, a + 10, v.state, decode);
      && h.result == Ok(Connect) && h.next == a
      && v.result.Ok? && v.next == a + 10
      && p.result.Ok? && p.next == q + Span(props)
      && p.state == c.(fixedHeader := buf[pos], remainLen := remainLen,
                       packetIdentifier := 0,
                       protocolNameLen := buf[a] as int * 0x100 + buf[a + 1] as int,
                       protocolName := buf[a + 2] as int * 0x100_0000 + buf[a + 3] as int * 0x1_0000
                                       + buf[a + 4] as int * 0x100 + buf[a + 5] as int,
                       protocolVersion := buf[a + 6],
                       connectFlags := buf[a + 7],
                       keepAlive := buf[a + 8] as int * 0x100 + buf[a + 9] as int,
                       propertyLen := Span(props),
                       properties := c.properties + props)
      && ControlPacketSpec(buf, pos, c, decode) == PayloadSpec(buf, p.next, p.state, decode)
  {
    var c1 := c.(fixedHeader := buf[pos], remainLen := remainLen);
    ConnectFixedHeader(buf, pos, c, remainLen, a);
    VariableHeaderLayout(buf, a, c1);
    var v := VariableHeaderSpec(buf, a, c1);
    PropertiesComplete(buf, a + 10, v.state, decode, props);
    var p := PropertiesSpec(buf, a + 10, v.state, decode);
    ControlPacketStages(buf, pos, c, decode, c1, a, v.state, p.state, p.next);
  }

  /** A CONNECT header byte followed by a well-formed remaining length is a
      successful fixed header of kind CONNECT. */
  lemma ConnectFixedHeader(buf: seq<byte>, pos: nat, c: ConnectState, remainLen: nat, a: nat)
    requires pos < |buf| && buf[pos] & 0xF0 == 0x10
    requires ParseVbi(buf, pos + 1) == Step(Ok(remainLen), a)
    ensures FixedHeaderSpec(buf, pos, c)
         == ConnectStep(Ok(Connect), c.(fixedHeader := buf[pos], remainLen := remainLen), a)
  {
    PacketTypeOfHeader(buf[pos], Connect);
  }

  /** The whole decode, once its three header stages have succeeded, goes on
      with the payload from the state and the position they leave. */
  lemma ControlPacketStages(buf: seq<byte>, pos: nat, c: ConnectState, decode: Decoder,
                            c1: ConnectState, a: nat, c2: ConnectState, c3: ConnectState, e: nat)
    requires FixedHeaderSpec(buf, pos, c) == ConnectStep(Ok(Connect), c1, a)
    requires VariableHeaderSpec(buf, a, c1) == ConnectStep(Ok(()), c2, a + 10)
    requires PropertiesSpec(buf, a + 10, c2, decode) == ConnectStep(Ok(()), c3, e)
    ensures ControlPacketSpec(buf, pos, c, decode) == PayloadSpec(buf, e, c3, decode)
  {
  }

  /** A successful property section is a Variable Byte Integer, stored in
      `propertyLen`, followed by properties lying back to back that fill
      exactly that many bytes; they are appended to `properties` in wire
      order, nothing else changes, and the cursor stands at the section's
      end. */
  lemma PropertiesLayout(buf: seq<byte>, pos: nat, c: ConnectState, decode: Decoder)
    requires PropertiesSpec(buf, pos, c, decode).result.Ok?
    ensures var s := PropertiesSpec(buf, pos, c, decode);
      var start := ParseVbi(buf, pos).next;
      && pos < start <= |buf|
      && IsVbi(buf[pos..start])
      && s.state.propertyLen == VbiValue(buf[pos..start])
      && |c.properties| <= |s.state.properties|
      && s.state.properties[..|c.properties|] == c.properties
      && PropertiesAt(buf, start, s.state.properties[|c.properties|..], decode)
      && Span(s.state.properties[|c.properties|..]) == s.state.propertyLen
      && s.next == start + s.state.propertyLen
      && s.state == c.(propertyLen := s.state.propertyLen, properties := s.state.properties)
  {
    ParseVbiIsVbi(buf, pos);
    var len := ParseVbi(buf, pos);
    PropertyLoopSound(buf, len.next, 0, len.result.value, MAX_PROPERTIES, decode, c.properties);
  }

  /** Conversely, a section length followed by properties that fill it
      exactly, with room for them in the list, is read whole. */
  lemma PropertiesComplete(buf: seq<byte>, pos: nat, c: ConnectState, decode: Decoder,
                           props: seq<Property>)
    requires ParseVbi(buf, pos).result == Ok(Span(props))
    requires PropertiesAt(buf, ParseVbi(buf, pos).next, props, decode)
    requires |c.properties| + |props| <= MAX_PROPERTIES
    ensures PropertiesSpec(buf, pos, c, decode)
         == ConnectStep(Ok(()), c.(propertyLen := Span(props), properties := c.properties + props),
                        ParseVbi(buf, pos).next + Span(props))
  {
    PropertyLoopComplete(buf, ParseVbi(buf, pos).next, 0, Span(props), MAX_PROPERTIES, decode,
                         c.properties, props);
  }

  /** A section length of 0 (the single byte 0x00) reads no property. */
  lemma PropertiesEmpty(buf: seq<byte>, pos: nat, c: ConnectState, decode: Decoder)
    requires pos < |buf| && buf[pos] == 0x00
    ensures PropertiesSpec(buf, pos, c, decode) == ConnectStep(Ok(()), c.(propertyLen := 0), pos + 1)
  {
    ParseVbiOfVbi(buf, pos, 1);
  }

  /** The payload changes only the fields its flags select: the client
      identifier always, the will fields only with the Will flag, the user
      name only with the User Name flag and the password only with the
      Password flag. */
  lemma PayloadTouchesOnlyFlaggedFields(buf: seq<byte>, pos: nat, c: ConnectState, decode: Decoder)
    ensures var s := PayloadSpec(buf, pos, c, decode);
      && s.state == c.(clientId := s.state.clientId, willProperties := s.state.willProperties,
                       willTopic := s.state.willTopic, willPayload := s.state.willPayload,
                       username := s.state.username, password := s.state.password)
      && (!FlagSet(c.connectFlags, WILL_FLAG) ==>
            && s.state.willProperties == c.willProperties
            && s.state.willTopic == c.willTopic
            && s.state.willPayload == c.willPayload)
      && (!FlagSet(c.connectFlags, USERNAME_FLAG) ==> s.state.username == c.username)
      && (!FlagSet(c.connectFlags, PASSWORD_FLAG) ==> s.state.password == c.password)
  {
    var id := ParseString(buf, pos);
    if id.result.Ok? {
      var c1 := c.(clientId := id.result.value);
      var will := if FlagSet(c.connectFlags, WILL_FLAG) then WillSpec(buf, id.next, c1, decode)
                  else ConnectStep(Ok(()), c1, id.next);
      assert will.state == c1.(willProperties := will.state.willProperties, willTopic := will.state.willTopic,
                               willPayload := will.state.willPayload);
      if will.result.Ok? {
        var user := if FlagSet(c.connectFlags, USERNAME_FLAG) then UsernameSpec(buf, will.next, will.state)
                    else ConnectStep(Ok(()), will.state, will.next);
        assert user.state == will.state.(username := user.state.username);
        if user.result.Ok? && FlagSet(c.connectFlags, PASSWORD_FLAG) {
          var word := PasswordSpec(buf, user.next, user.state);
          assert word.state == user.state.(password := word.state.password);
        }
      }
    }
  }

  /** With no flag set the payload is the client identifier alone: the
      string at `pos`, and the cursor just after it. */
  lemma PayloadClientIdOnly(buf: seq<byte>, pos: nat, c: ConnectState, decode: Decoder)
    requires !FlagSet(c.connectFlags, WILL_FLAG)
    requires !FlagSet(c.connectFlags, USERNAME_FLAG) && !FlagSet(c.connectFlags, PASSWORD_FLAG)
    ensures var id := ParseString(buf, pos);
      PayloadSpec(buf, pos, c, decode)
      == if id.result.Ok? then ConnectStep(Ok(()), c.(clientId := id.result.value), id.next)
         else ConnectStep(Err(id.result.error), c, id.next)
  {
  }

  /** With the credential flags set and the Will flag clear, the payload is
      the client identifier, the user name and the password, back to back. */
  lemma PayloadCredentialsOnly(buf: seq<byte>, pos: nat, c: ConnectState, decode: Decoder)
    requires !FlagSet(c.connectFlags, WILL_FLAG)
    requires FlagSet(c.connectFlags, USERNAME_FLAG) && FlagSet(c.connectFlags, PASSWORD_FLAG)
    requires PayloadSpec(buf, pos, c, decode).result.Ok?
    ensures var s := PayloadSpec(buf, pos, c, decode);
      var id := ParseString(buf, pos);
      var user := ParseString(buf, id.next);
      var word := ParseBinary(buf, user.next);
      && id.result == Ok(s.state.clientId)
      && user.result == Ok(s.state.username)
      && word.result == Ok(s.state.password)
      && s.next == word.next
      && s.state == c.(clientId := s.state.clientId, username := s.state.username,
                       password := s.state.password)
  {
  }

  /** With only the Will flag set, the payload is the client identifier and
      the will section; user name and password are not read. */
  lemma PayloadWillOnly(buf: seq<byte>, pos: nat, c: ConnectState, decode: Decoder)
    requires FlagSet(c.connectFlags, WILL_FLAG)
    requires !FlagSet(c.connectFlags, USERNAME_FLAG) && !FlagSet(c.connectFlags, PASSWORD_FLAG)
    requires PayloadSpec(buf, pos, c, decode).result.Ok?
    ensures var s := PayloadSpec(buf, pos, c, decode);
      var id := ParseString(buf, pos);
      && id.result == Ok(s.state.clientId)
      && s == WillSpec(buf, id.next, c.(clientId := s.state.clientId), decode)
      && s.state.username == c.username && s.state.password == c.password
  {
  }

  // ---------------------------------------------------------------------------
  // The cursor and the views stay inside the buffer
  // ---------------------------------------------------------------------------

  /** A clean packet's views are empty, so they lie inside any buffer. */
  lemma CleanViewsInBounds(properties: seq<Property>, willProperties: seq<Property>, buf: seq<byte>)
    ensures CleanConnect(properties, willProperties).ViewsInBounds(buf)
  {
  }

  /** A successful will section, with a decoder that keeps to the buffer,
      ends inside the buffer and stores views inside it. */
  lemma WillInBounds(buf: seq<byte>, pos: nat, c: ConnectState, decode: Decoder)
    requires DecoderInBounds(decode, buf)
    requires c.ViewsInBounds(buf)
    requires WillSpec(buf, pos, c, decode).result.Ok?
    ensures var s := WillSpec(buf, pos, c, decode);
      pos <= s.next <= |buf| && s.state.ViewsInBounds(buf)
  {
    var len := ParseVbi(buf, pos);
    ReadsStayInBounds(buf, pos);
    PropertyLoopInBounds(buf, len.next, 0, len.result.value, MAX_WILL_PROPERTIES, decode,
                         c.willProperties);
    var props := WillPropertiesSpec(buf, pos, c, decode);
    ParseStringView(buf, props.next);
    ReadsStayInBounds(buf, props.next);
    var topic := ParseString(buf, props.next);
    ParseBinaryView(buf, topic.next);
    ReadsStayInBounds(buf, topic.next);
  }

  /** A successful payload, with a decoder that keeps to the buffer, ends
      inside the buffer, and every view it stores lies inside it. */
  lemma PayloadInBounds(buf: seq<byte>, pos: nat, c: ConnectState, decode: Decoder)
    requires DecoderInBounds(decode, buf)
    requires c.ViewsInBounds(buf)
    requires PayloadSpec(buf, pos, c, decode).result.Ok?
    ensures var s := PayloadSpec(buf, pos, c, decode);
      pos < s.next <= |buf| && s.state.ViewsInBounds(buf)
  {
    var id := ParseString(buf, pos);
    ParseStringView(buf, pos);
    ReadsStayInBounds(buf, pos);
    var c1 := c.(clientId := id.result.value);
    var will := if FlagSet(c.connectFlags, WILL_FLAG) then WillSpec(buf, id.next, c1, decode)
                else ConnectStep(Ok(()), c1, id.next);
    if FlagSet(c.connectFlags, WILL_FLAG) {
      WillInBounds(buf, id.next, c1, decode);
    }
    var user := if FlagSet(c.connectFlags, USERNAME_FLAG) then UsernameSpec(buf, will.next, will.state)
                else ConnectStep(Ok(()), will.state, will.next);
    if FlagSet(c.connectFlags, USERNAME_FLAG) && will.result.Ok? {
      UsernameInBounds(buf, will.next, will.state);
    }
    if FlagSet(c.connectFlags, PASSWORD_FLAG) && will.result.Ok? && user.result.Ok? {
      PasswordInBounds(buf, user.next, user.state);
    }
  }

  /** A successful user name read stores a view inside the buffer and ends
      inside it. */
  lemma UsernameInBounds(buf: seq<byte>, pos: nat, c: ConnectState)
    requires c.ViewsInBounds(buf)
    requires UsernameSpec(buf, pos, c).result.Ok?
    ensures var s := UsernameSpec(buf, pos, c);
      pos < s.next <= |buf| && s.state.ViewsInBounds(buf)
  {
    ParseStringView(buf, pos);
    ReadsStayInBounds(buf, pos);
  }

  /** A successful password read stores a view inside the buffer and ends
      inside it. */
  lemma PasswordInBounds(buf: seq<byte>, pos: nat, c: ConnectState)
    requires c.ViewsInBounds(buf)
    requires PasswordSpec(buf, pos, c).result.Ok?
    ensures var s := PasswordSpec(buf, pos, c);
      pos < s.next <= |buf| && s.state.ViewsInBounds(buf)
  {
    ParseBinaryView(buf, pos);
    ReadsStayInBounds(buf, pos);
  }

  /** A successful CONNECT decode, with a decoder that keeps to the buffer,
      moves the cursor forward and never past the end of the buffer, and
      every view the packet then holds lies inside the buffer. */
  lemma ControlPacketInBounds(buf: seq<byte>, pos: nat, c: ConnectState, decode: Decoder)
    requires DecoderInBounds(decode, buf)
    requires c.ViewsInBounds(buf)
    requires ControlPacketSpec(buf, pos, c, decode).result.Ok?
    ensures var s := ControlPacketSpec(buf, pos, c, decode);
      pos < s.next <= |buf| && s.state.ViewsInBounds(buf)
  {
    var h := FixedHeaderSpec(buf, pos, c);
    FixedHeaderLayout(buf, pos, c);
    if h.next + 10 > |buf| {
      VariableHeaderShort(buf, h.next, h.state);
    }
    VariableHeaderLayout(buf, h.next, h.state);
    var v := VariableHeaderSpec(buf, h.next, h.state);
    var len := ParseVbi(buf, v.next);
    ReadsStayInBounds(buf, v.next);
    PropertyLoopInBounds(buf, len.next, 0, len.result.value, MAX_PROPERTIES, decode, v.state.properties);
    var p := PropertiesSpec(buf, v.next, v.state, decode);
    PayloadInBounds(buf, p.next, p.state, decode);
  }

  // ---------------------------------------------------------------------------
  // The flag tests as written
  // ---------------------------------------------------------------------------

  /** The tests of `decode_payload` as written: the masked value equal to 1. */
  predicate FlagSetAsWritten(flags: byte, mask: byte): (b: bool)
    ensures b ==> mask & 0x01 == 0x01 && flags & 0x01 == 0x01
  {
    flags & mask == 1
  }

  /** For the Will, User Name and Password bits the test as written never
      fires, whatever the flags; the flag byte 0x04 has the Will flag set all
      the same. */
  lemma FlagTestAsWrittenNeverFires(flags: byte)
    ensures !FlagSetAsWritten(flags, WILL_FLAG)
    ensures !FlagSetAsWritten(flags, USERNAME_FLAG)
    ensures !FlagSetAsWritten(flags, PASSWORD_FLAG)
    ensures FlagSet(0x04, WILL_FLAG) && !FlagSetAsWritten(0x04, WILL_FLAG)
  {
  }

  /** Bit 0 is the one position for which the test as written agrees with
      the bit test. */
  lemma FlagTestsAgreeOnlyForBitZero(flags: byte, bit: nat)
    requires bit < 8
    ensures FlagSetAsWritten(flags, 1 << bit) == FlagSet(flags, 1 << bit) <==>
              bit == 0 || flags & (1 << bit) == 0
  {
  }

  // ---------------------------------------------------------------------------
  // An example packet
  // ---------------------------------------------------------------------------

  /** CONNECT, remaining length 16, protocol name "MQTT", version 5, connect
      flags 0x02 (Clean Start only), keep alive 60, no properties, client
      identifier "abc". */
  const EXAMPLE_CONNECT: seq<byte> :=
    [0x10, 0x10, 0x00, 0x04, 0x4D, 0x51, 0x54, 0x54, 0x05, 0x02, 0x00, 0x3C, 0x00,
     0x00, 0x03, 0x61, 0x62, 0x63]

  /** The example decodes whole into a clean packet: every header field as
      encoded, client identifier "abc", and no will, user name or password. */
  lemma ExampleConnectDecodes(decode: Decoder)
    ensures var s := ControlPacketSpec(EXAMPLE_CONNECT, 0, CleanConnect([], []), decode);
      && s.result == Ok(())
      && s.next == |EXAMPLE_CONNECT|
      && s.state == CleanConnect([], []).(fixedHeader := 0x10, remainLen := 16, protocolNameLen := 4,
                                          protocolName := 0x4D51_5454, connectFlags := 0x02,
                                          keepAlive := 60, clientId := EncodedString(15, 3))
      && s.state.clientId.Text(EXAMPLE_CONNECT) == [0x61, 0x62, 0x63]
  {
    var c := CleanConnect([], []);
    var h := c.(fixedHeader := 0x10, remainLen := 16);
    var v := h.(protocolNameLen := 4, protocolName := 0x4D51_5454, connectFlags := 0x02, keepAlive := 60);
    ExampleFixedHeader();
    ExampleVariableHeader(h);
    PropertiesEmpty(EXAMPLE_CONNECT, 12, v, decode);
    ExamplePayload(v, decode);
  }

  lemma ExampleFixedHeader()
    ensures FixedHeaderSpec(EXAMPLE_CONNECT, 0, CleanConnect([], []))
         == ConnectStep(Ok(Connect), CleanConnect([], []).(fixedHeader := 0x10, remainLen := 16), 2)
  {
    ParseVbiOfVbi(EXAMPLE_CONNECT, 1, 1);
  }

  lemma ExampleVariableHeader(h: ConnectState)
    ensures VariableHeaderSpec(EXAMPLE_CONNECT, 2, h)
         == ConnectStep(Ok(()), h.(packetIdentifier := 0, protocolNameLen := 4, protocolName := 0x4D51_5454,
                                   protocolVersion := 5, connectFlags := 0x02, keepAlive := 60), 12)
  {
    var buf := EXAMPLE_CONNECT;
    ExampleHeaderBytes();
    assert buf[2] as int * 0x100 + buf[3] as int == 4;
    assert buf[4] as int * 0x100_0000 + buf[5] as int * 0x1_0000 + buf[6] as int * 0x100 + buf[7] as int
        == 0x4D51_5454;
    assert buf[10] as int * 0x100 + buf[11] as int == 60;
    VariableHeaderLayout(buf, 2, h);
  }

  /** The ten variable header bytes of the example. */
  lemma ExampleHeaderBytes()
    ensures |EXAMPLE_CONNECT| == 18
    ensures EXAMPLE_CONNECT[2..12] == [0x00, 0x04, 0x4D, 0x51, 0x54, 0x54, 0x05, 0x02, 0x00, 0x3C]
  {
  }

  lemma ExamplePayload(v: ConnectState, decode: Decoder)
    requires v.connectFlags == 0x02
    ensures PayloadSpec(EXAMPLE_CONNECT, 13, v, decode)
         == ConnectStep(Ok(()), v.(clientId := EncodedString(15, 3)), 18)
    ensures EncodedString(15, 3).Text(EXAMPLE_CONNECT) == [0x61, 0x62, 0x63]
  {
    var buf := EXAMPLE_CONNECT;
    ParseU16Layout(buf, 13);
    AsciiIsValidUtf8(buf[15..18]);
    assert ParseString(buf, 13) == Step(Ok(EncodedString(15, 3)), 18);
    PayloadClientIdOnly(buf, 13, v, decode);
  }
}
