/** The packet kind carried in the high nibble of the fixed header byte
    (section 2.1.2 of the MQTT Version 5.0 standard). The low nibble holds
    flags that are not part of the kind. */
module PacketTypes {
  import opened Bytes

  datatype PacketType =
    | Reserved | Connect | Connack | Publish | Puback | Pubrec | Pubrel | Pubcomp
    | Subscribe | Suback | Unsubscribe | Unsuback | Pingreq | Pingresp | Disconnect | Auth

  /** The value of the kind in section 2.1.2 (CONNECT = 1, CONNACK = 2, ...). */
  function Code(t: PacketType): (c: byte)
    ensures c < 16
  {
    match t
    case Reserved => 0
    case Connect => 1
    case Connack => 2
    case Publish => 3
    case Puback => 4
    case Pubrec => 5
    case Pubrel => 6
    case Pubcomp => 7
    case Subscribe => 8
    case Suback => 9
    case Unsubscribe => 10
    case Unsuback => 11
    case Pingreq => 12
    case Pingresp => 13
    case Disconnect => 14
    case Auth => 15
  }

  function FromCode(c: byte): PacketType
    requires c < 16
  {
    if c == 0 then Reserved
    else if c == 1 then Connect
    else if c == 2 then Connack
    else if c == 3 then Publish
    else if c == 4 then Puback
    else if c == 5 then Pubrec
    else if c == 6 then Pubrel
    else if c == 7 then Pubcomp
    else if c == 8 then Subscribe
    else if c == 9 then Suback
    else if c == 10 then Unsubscribe
    else if c == 11 then Unsuback
    else if c == 12 then Pingreq
    else if c == 13 then Pingresp
    else if c == 14 then Disconnect
    else Auth
  }

  /** The kind placed in the high nibble, as it is ORed into a header byte. */
  function HeaderBits(t: PacketType): (b: byte)
    ensures b & 0x0F == 0
  {
    Code(t) << 4
  }

  /** `PacketType::from`: the kind named by a header byte's high nibble. */
  function PacketTypeOf(header: byte): (t: PacketType)
    ensures Code(t) == header >> 4
  {
    FromCode(header >> 4)
  }

  /** A header byte names kind `t` exactly when its high nibble is `t`'s bits. */
  lemma {:induction false} PacketTypeOfHeader(header: byte, t: PacketType)
    ensures PacketTypeOf(header) == t <==> header & 0xF0 == HeaderBits(t)
  {
    var c := header >> 4;
    assert header & 0xF0 == c << 4;
    CodeOfFromCode(c);
    FromCodeOfCode(t);
    assert c == Code(t) <==> c << 4 == Code(t) << 4;
  }

  lemma CodeOfFromCode(c: byte)
    requires c < 16
    ensures Code(FromCode(c)) == c
  {
  }

  lemma FromCodeOfCode(t: PacketType)
    ensures FromCode(Code(t)) == t
  {
  }

  /** Flags in the low nibble do not change the kind. */
  lemma KindIgnoresFlags(t: PacketType, flags: byte)
    requires flags < 16
    ensures PacketTypeOf(HeaderBits(t) | flags) == t
  {
    PacketTypeOfHeader(HeaderBits(t) | flags, t);
  }
}
