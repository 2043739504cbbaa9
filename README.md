# MQTT v5 decoder core in Dafny

This project models the decoding engine of a small MQTT v5 client library
and proves properties of that model. The engine has three parts, all built
on one cursor over an immutable byte buffer:

- `BuffReader` (`src/utils/buffer_reader.rs`). It has bounds-checked reads of
  a byte, a Two Byte Integer and a Four Byte Integer (big-endian), the
  Variable Byte Integer (section 1.5.5 of the MQTT Version 5.0 standard),
  UTF-8 Encoded Strings, Binary Data and String Pairs. The latter hand out
  views into the buffer. A view is an `(offset, len)` range; it is not a
  borrowed slice.
- `ControlPacket` (`src/packet/control_packet.rs`), the CONNECT decoder. It
  reads the fixed header, the ten-byte variable header, the property section
  and the payload; the connect-flag bits gate the payload. Its header-byte
  helpers are `addPacketType` and `addFlags`.
- `ConnackPacket` (`src/packet/connack_packet.rs`), the CONNACK decoder. It
  reads the fixed header, the acknowledge flags, the reason code and the
  property section.

Files and modules:

| file | module | contents |
|---|---|---|
| `bytes.dfy` | `Bytes` | big-endian integers, the Variable Byte Integer, UTF-8 well-formedness (section 4 of RFC 3629) |
| `buffer_reader.dfy` | `BufferReader` | `ParseError`, the views, the pure read specifications `Parse*`, `class BuffReader` |
| `packet_type.dfy` | `PacketTypes` | the packet kind in the high nibble of the header byte |
| `property.dfy` | `Properties` | the abstract property decoder and the property-section loop that both packets share |
| `control_packet.dfy` | `ControlPackets` | `class ControlPacket` and its specification |
| `connack_packet.dfy` | `ConnackPackets` | `class ConnackPacket` and its specification |

How the model is built:

- Every read has a pure specification `Parse*(buf, pos)`. It returns a
  `Step`: the result, plus the cursor position afterwards, also on failure.
  Each `BuffReader` method is proved to end in exactly that `Step`.
- Each packet's fields also form a datatype (`ConnectState`,
  `ConnackState`), and `Snapshot()` reads them from the object.
- Every decoding step has a specification over the snapshot. It gives the
  result, the fields after the step (also after a failure part-way) and the
  cursor. Each decoding method is proved to behave exactly as its
  specification says.
- Lemmas about the specifications then state what the source promises:
  - the wire layout and field order;
  - round trips;
  - the capacity bounds;
  - termination and exactness of the property loop;
  - the flag gating;
  - two end-to-end example packets.

Where the source panics (`unwrap` on a failed read, slicing past the end),
the model returns the error instead, and decoding stops there.

The model follows the intended behaviour where the source is evidently
wrong. Each case is listed under "## Findings" or "## Left out".

- A flag bit counts as set when the masked value is non-zero. The source
  compares the masked value to 1.
- Bounds are checked before any byte is read, and a short buffer gives
  `IndexOutOfBounce`. `read_variable_byte_int` as written fetches four bytes
  whatever the integer's length. On `[0x20, 0x03, 0x00, 0x00, 0x00]` it
  therefore indexes past the end when it reaches the property length.
- `read_binary` moves the cursor past the data.
- The property loop:
  - checks the declared length before its first decode;
  - stops once the consumed count reaches the declared length;
  - reports overshoot, or a property that fails to decode, as
    `DecodingError`;
  - reports a full list as `EncodingError`.
- A CONNECT decode whose fixed header names another kind stops with
  `DecodingError`. The source only logs this.

## Model

| member | source | states |
|---|---|---|
| `BufferReader.BuffReader.constructor` | src/utils/buffer_reader.rs:123-128 | the reader holds the given buffer and its cursor starts at 0 |
| `BufferReader.BuffReader.IncrementPosition` | src/utils/buffer_reader.rs:119-121 | the cursor moves forward by exactly the increment |
| `BufferReader.BuffReader.ReadU8` | src/utils/buffer_reader.rs:171-175 | the read ends exactly as `ParseU8` says: `buffer[position]` and one byte on, or `IndexOutOfBounce` with the cursor kept |
| `BufferReader.BuffReader.ReadU16` | src/utils/buffer_reader.rs:163-168 | the read ends exactly as `ParseU16` says: the big-endian value of the next two bytes and two bytes on, or `IndexOutOfBounce` |
| `BufferReader.BuffReader.ReadU32` | src/utils/buffer_reader.rs:155-160 | the read ends exactly as `ParseU32` says: the big-endian value of the next four bytes and four bytes on, or `IndexOutOfBounce` |
| `BufferReader.BuffReader.ReadVariableByteInt` | src/utils/buffer_reader.rs:132-152 | the read ends exactly as `ParseVbi` says: the length comes from the continuation bits, each byte is bounds-checked before it is looked at, and the cursor moves by that length |
| `BufferReader.DecodeVbi` | src/utils/buffer_reader.rs:151 | the decoder loop gives the section 1.5.5 value of the bytes up to the first byte without the continuation bit; a fourth byte that continues gives `VariableByteIntegerError`, and bytes that run out give `IndexOutOfBounce` |
| `BufferReader.BuffReader.ReadString` | src/utils/buffer_reader.rs:178-196 | the read ends exactly as `ParseString` says: a prefix, a bounds check, a UTF-8 check, a view, and the cursor past the text |
| `BufferReader.BuffReader.ReadBinary` | src/utils/buffer_reader.rs:200-212 | the read ends exactly as `ParseBinary` says: a prefix, a bounds check, a view, and the cursor past the data |
| `BufferReader.BuffReader.ReadStringPair` | src/utils/buffer_reader.rs:215-230 | the read ends exactly as `ParseStringPair` says: the name, then the value, with the first error returned |
| `BufferReader.BuffReader.ReadMessage` | src/utils/buffer_reader.rs:233-235 | success exactly when `position <= totalLen <= |buffer|`, and then the bytes `buffer[position..totalLen]`; otherwise `IndexOutOfBounce`; the cursor is not changed |
| `BufferReader.EncodedString.Len` | src/utils/buffer_reader.rs:43-45 | a string occupies its `len` bytes plus the two-byte prefix on the wire; this is at least 2, and it agrees with the source's 16-bit `len()` exactly when `len < 65534` |
| `BufferReader.BinaryData.Len` | src/utils/buffer_reader.rs:61-63 | binary data occupies its `len` bytes plus the two-byte prefix; this is at least 2, and it agrees with the source's 16-bit `len()` exactly when `len < 65534` |
| `BufferReader.StringPair.Len` | src/utils/buffer_reader.rs:74-78 | a pair occupies at least 4 bytes, and its size agrees with the source's 16-bit sum of the two `len()`s exactly when that size is below 65536 |
| `BufferReader.TopicFilter.Len` | src/utils/buffer_reader.rs:96-98 | the encoded size is the filter string's encoded size plus one options byte |
| `BufferReader.EmptyString` | src/utils/buffer_reader.rs:39-41 | `EncodedString::new` has length 0, occupies 2 bytes, and as a view lies inside every buffer with empty text |
| `BufferReader.EmptyBinary` | src/utils/buffer_reader.rs:57-59 | `BinaryData::new` has length 0, occupies 2 bytes, and lies inside every buffer with no data |
| `BufferReader.EmptyTopicFilter` | src/utils/buffer_reader.rs:89-94 | `TopicFilter::new` has an empty filter and options 0, and occupies 3 bytes |
| `BufferReader.TopicFilterRoundTrip` | src/utils/buffer_reader.rs:82-98 | a filter string followed by its options byte reads back as that text and that byte, and the two together occupy the filter's `Len()`, `|text| + 3` bytes |
| `BufferReader.EncodedLenAsWritten` | src/utils/buffer_reader.rs:43-45 | the source's 16-bit `len + 2`: exactly `len + 2` below 65534, and `len - 65534` (0 or 1) from there on |
| `BufferReader.ReadsStayInBounds` | src/utils/buffer_reader.rs:155-230 | no read, successful or not, moves the cursor back; every successful read ends inside the buffer; the fixed-width reads move forward by exactly 1, 2 or 4, and a Variable Byte Integer by 1 to 4 |
| `BufferReader.ParseU8RoundTrip` | src/utils/buffer_reader.rs:171-175 | a byte written anywhere in a buffer and read there comes back, one byte on |
| `BufferReader.ParseU16Layout` | src/utils/buffer_reader.rs:163-168 | succeeds exactly when two bytes are left, and then yields `256*b0 + b1` and moves on two; otherwise it is `IndexOutOfBounce` with the cursor kept |
| `BufferReader.ParseU32Layout` | src/utils/buffer_reader.rs:155-160 | succeeds exactly when four bytes are left, and then yields the bytes most significant first and moves on four; otherwise it is `IndexOutOfBounce` with the cursor kept |
| `BufferReader.ShortBufferGivesIndexOutOfBounce` | src/utils/buffer_reader.rs:104 | too few bytes for a byte, a Two or Four Byte Integer, or the prefix or the body of a string or binary, and no byte at all for a Variable Byte Integer: the result is `IndexOutOfBounce` |
| `BufferReader.ParseU16RoundTrip` | src/utils/buffer_reader.rs:163-168 | writing a u16 big-endian anywhere in a buffer and reading it there gives the value back, two bytes on |
| `BufferReader.ParseU32RoundTrip` | src/utils/buffer_reader.rs:155-160 | writing a u32 big-endian anywhere in a buffer and reading it there gives the value back, four bytes on |
| `Bytes.BigEndianOfToBigEndian` | src/utils/buffer_reader.rs:157 | the `n`-byte big-endian representation of a value reads back as that value |
| `BufferReader.VbiLengthFromIsVbi` | src/utils/buffer_reader.rs:139-149 | the length found from the continuation bits spans one well-formed Variable Byte Integer. `VariableByteIntegerError` means exactly four continuing bytes. `IndexOutOfBounce` means the buffer ends while every byte so far continues |
| `BufferReader.ParseVbiIsVbi` | src/utils/buffer_reader.rs:132-152 | a successful read spans one well-formed integer of 1 to 4 bytes inside the buffer; its value is the section 1.5.5 value, at most 268435455 |
| `BufferReader.ParseVbiOfVbi` | src/utils/buffer_reader.rs:132-152 | conversely, a well-formed integer at the cursor is read whole, with its value and its length |
| `BufferReader.ParseVbiMalformed` | src/utils/buffer_reader.rs:130-152 | `VariableByteIntegerError` happens exactly when four bytes all carry the continuation bit |
| `BufferReader.ParseVbiRoundTrip` | src/utils/buffer_reader.rs:132-152 | encoding any value up to 268435455 by section 1.5.5 and reading it back gives the value, with the cursor moved by the encoded size (1, 2, 3 or 4 bytes at the boundaries 128, 16384, 2097152) |
| `BufferReader.ParseStringView` | src/utils/buffer_reader.rs:178-196 | a successful string read gives the view `buf[pos+2 .. pos+2+L]`, where `L` is the big-endian prefix; the view is in bounds and valid UTF-8, and the cursor moves by its `Len()` = 2+L |
| `BufferReader.ParseStringUtf8Error` | src/utils/buffer_reader.rs:185-190 | `Utf8Error` happens exactly when the `L` bytes are present but are not valid UTF-8 |
| `BufferReader.ParseStringRoundTrip` | src/utils/buffer_reader.rs:178-196 | a length prefix plus valid UTF-8 text, read back, gives a view of exactly that text, with `Len() == |text| + 2` |
| `BufferReader.ParseBinaryRoundTrip` | src/utils/buffer_reader.rs:200-212 | a length prefix plus data, read back, gives a view of exactly that data, with `Len() == |data| + 2`, and the cursor past it |
| `BufferReader.ParseBinaryView` | src/utils/buffer_reader.rs:200-212 | a successful binary read gives the in-bounds view after the prefix, and the cursor moves by its `Len()` |
| `BufferReader.ParseStringPairSequence` | src/utils/buffer_reader.rs:215-230 | a failed name read is the pair's result and the value is not read; a successful pair is the name string followed by the value string, and occupies `name.Len() + value.Len()` bytes |
| `BufferReader.VbiLengthAsWritten` | src/utils/buffer_reader.rs:139-149 | with the continuation test `b & 0x80 == 1`, the length found is 1 whatever the bytes |
| `BufferReader.VbiLengthAsWrittenIsWrong` | src/utils/buffer_reader.rs:141-145 | the as-written length of the integer `[0x80, 0x01]` is 1, while that integer is two bytes long |
| `BufferReader.BinaryAsWrittenDoesNotAdvance` | src/utils/buffer_reader.rs:207-211 | on `[0x00, 0x01, 0xAB]` the read as written leaves the cursor at 2, on the data, while the corrected read moves it to 3 |
| `BufferReader.ParseBinaryAsWritten` | src/utils/buffer_reader.rs:200-212 | `read_binary` as written returns the same data as the corrected read, but leaves the cursor just after the length prefix |
| `BufferReader.EncodedLenWraps` | src/utils/buffer_reader.rs:43-45 | in 16 bits `len + 2` overflows for lengths 65534 and 65535, to 0 or 1 where it wraps, while such strings occupy 65536 and 65537 bytes |
| `Bytes.AsciiIsValidUtf8` | src/utils/buffer_reader.rs:185-186 | every 7-bit ASCII byte sequence passes the UTF-8 check |
| `Bytes.LoneHighByteIsInvalid` | src/utils/buffer_reader.rs:185-186 | a single byte of 0x80 or above fails the UTF-8 check |
| `PacketTypes.PacketTypeOf` | src/packet/control_packet.rs:86 | `PacketType::from`: the kind a header byte names has the byte's high nibble as its code |
| `PacketTypes.PacketTypeOfHeader` | src/packet/control_packet.rs:86 | a header byte names kind `t` exactly when its high nibble holds `t`'s code |
| `PacketTypes.KindIgnoresFlags` | src/packet/control_packet.rs:86 | the low-nibble flags never change the kind a header byte names |
| `PacketTypes.CodeOfFromCode` | src/packet/control_packet.rs:86 | every nibble value names a kind whose code is that value |
| `PacketTypes.FromCodeOfCode` | src/packet/control_packet.rs:57 | every kind's code names that kind again |
| `PacketTypes.HeaderBits` | src/packet/control_packet.rs:57 | a kind's header bits leave the low nibble clear |
| `Properties.DecodeProperty` | src/packet/control_packet.rs:96-99 | one property decode either fails with the cursor kept, or yields `p` and moves the cursor by exactly `p.Len() + 1` |
| `Properties.PropertyLoop` | src/packet/control_packet.rs:89-110 | the loop only appends to the list it is given, and it never takes a list within capacity past the capacity |
| `Properties.DecodePropertyList` | src/packet/control_packet.rs:92-109 | the counter loop ends exactly as `PropertyLoop` says: the result, the list and the cursor |
| `Properties.PropertyLoopSound` | src/packet/control_packet.rs:94-109 | a successful loop read properties lying back to back from the cursor; their encoded sizes sum to exactly the declared length, and the cursor stands just after them |
| `Properties.PropertyLoopComplete` | src/packet/control_packet.rs:94-109 | conversely, properties that fill the declared length exactly, with room for them, are all read in order, and the cursor ends after them |
| `Properties.PropertyLoopOvershoot` | src/packet/control_packet.rs:106-108 | a declared length that falls inside a property, not on a boundary, ends in `DecodingError`; the loop terminates |
| `Properties.PropertyLoopFull` | src/packet/control_packet.rs:94-109 | properties lying back to back inside the declared length that are more than the list has room for end in `EncodingError` once the list is full |
| `Properties.PropertyLoopDecodeFailure` | src/packet/control_packet.rs:101-104 | a property that fails to decode inside the section is a `DecodingError`; nothing is added and the cursor stays on it |
| `Properties.PropertyLoopEmpty` | src/packet/connack_packet.rs:35-55 | a declared length of 0 reads nothing and adds nothing |
| `Properties.PropertyLoopInBounds` | src/packet/control_packet.rs:94-109 | with a decoder whose properties end inside the buffer, the loop never moves the cursor back and never past the end of the buffer, whatever its result |
| `Properties.LoopStopsAsWritten` | src/packet/control_packet.rs:94-109 | the loop as written exits only when the count equals the declared length, and the count never goes down, so once it has passed the declared length the loop never exits |
| `Properties.LoopAsWrittenNeverStops` | src/packet/control_packet.rs:94-109 | for an empty section (declared length 0) followed by a property that decodes, the loop as written decodes that property anyway and then never exits. The corrected loop reads nothing and succeeds |
| `Properties.StuckAfterFailure` | src/packet/control_packet.rs:101-108 | on a failed decode the count stays put (lines 101-104); if the decoder also leaves the cursor in place, as the model's decoder does, the loop repeats the failure forever |
| `ControlPackets.ControlPacket.Clean` | src/packet/control_packet.rs:45-49 | a clean packet has protocol version 5, every other number 0, strings and binaries of length 0, and the given lists, within their capacities |
| `ControlPackets.WithPacketType` | src/packet/control_packet.rs:55-58 | `addPacketType` keeps the low-nibble flags, and the header then names the new kind |
| `ControlPackets.ControlPacket.AddPacketType` | src/packet/control_packet.rs:55-58 | the header becomes `WithPacketType` of the old one, and no other field changes |
| `ControlPackets.PublishFlags` | src/packet/control_packet.rs:66-78 | the PUBLISH flags sit in the low nibble only: DUP is 0x08, QoS 2 is 0x04, QoS 1 is 0x02 and RETAIN is 0x01, each set exactly when asked for |
| `ControlPackets.WithFlags` | src/packet/control_packet.rs:60-80 | a header that does not name PUBLISH is left unchanged; a PUBLISH header keeps its kind and gets exactly the PUBLISH flags in its low nibble |
| `ControlPackets.ControlPacket.AddFlags` | src/packet/control_packet.rs:60-80 | the header becomes `WithFlags` of the old one, and no other field changes |
| `ControlPackets.FixedHeaderSpec` | src/packet/control_packet.rs:82-87 | reading the fixed header never touches the property lists |
| `ControlPackets.ControlPacket.DecodeFixedHeader` | src/packet/control_packet.rs:82-87 | the method ends exactly as `FixedHeaderSpec` says: the fields, the kind and the cursor |
| `ControlPackets.FixedHeaderLayout` | src/packet/control_packet.rs:82-87 | a successful fixed header stores the first byte as `fixedHeader` and the Variable Byte Integer after it as `remainLen`; it returns the first byte's kind and changes nothing else |
| `ControlPackets.FixedHeaderErrors` | src/packet/control_packet.rs:83-85 | an empty buffer fails with `IndexOutOfBounce` and stores nothing; a malformed length fails with its error after the first byte is stored |
| `ControlPackets.VariableHeaderSpec` | src/packet/control_packet.rs:155-160 | the variable header never touches the property lists |
| `ControlPackets.ControlPacket.DecodeVariableHeader` | src/packet/control_packet.rs:155-160 | the method ends exactly as `VariableHeaderSpec` says: the fields and the cursor |
| `ControlPackets.VariableHeaderLayout` | src/packet/control_packet.rs:155-160 | with ten bytes left the variable header succeeds, `packetIdentifier` is 0, and the fields sit at fixed offsets: name length at 0-1, protocol name at 2-5, version at 6, connect flags at 7, keep alive at 8-9 (big-endian); the cursor moves by exactly 10 |
| `ControlPackets.VariableHeaderShort` | src/packet/control_packet.rs:156-160 | with fewer than ten bytes left the variable header fails with `IndexOutOfBounce` |
| `ControlPackets.PropertiesSpec` | src/packet/control_packet.rs:89-110 | the property section keeps the property list within 18 and leaves the will properties alone |
| `ControlPackets.ControlPacket.DecodeProperties` | src/packet/control_packet.rs:89-110 | the method ends exactly as `PropertiesSpec` says |
| `ControlPackets.PropertiesLayout` | src/packet/control_packet.rs:89-110 | a successful section stores the declared length in `propertyLen`. The properties after it lie back to back and fill exactly that length. They are appended in wire order, nothing else changes, and the cursor stands at the section's end |
| `ControlPackets.PropertiesComplete` | src/packet/control_packet.rs:89-110 | a section length followed by properties that fill it exactly, with room in the list, is read whole |
| `ControlPackets.PropertiesEmpty` | src/packet/control_packet.rs:91-109 | a section length of 0 reads one byte and adds no property |
| `ControlPackets.WillPropertiesSpec` | src/packet/control_packet.rs:112-133 | the will-property section changes only the will-property list, and keeps it within 7 |
| `ControlPackets.ControlPacket.DecodeWillProperties` | src/packet/control_packet.rs:112-133 | the method ends exactly as `WillPropertiesSpec` says |
| `ControlPackets.WillSpec` | src/packet/control_packet.rs:138-140 | the will section changes only the will properties, topic and payload, and keeps the list within 7 |
| `ControlPackets.ControlPacket.DecodeWill` | src/packet/control_packet.rs:138-140 | the method ends exactly as `WillSpec` says: will properties, then topic, then payload |
| `ControlPackets.ControlPacket.DecodeUsername` | src/packet/control_packet.rs:144 | the user name is a UTF-8 string read as `ParseString` says |
| `ControlPackets.ControlPacket.DecodePassword` | src/packet/control_packet.rs:147 | the password is binary data read as `ParseBinary` says |
| `ControlPackets.PayloadSpec` | src/packet/control_packet.rs:135-149 | the payload leaves the packet properties alone and keeps the will-property list within 7 |
| `ControlPackets.UsernameSpec` | src/packet/control_packet.rs:143-145 | reading the user name changes no field but `username` |
| `ControlPackets.PasswordSpec` | src/packet/control_packet.rs:146-148 | reading the password changes no field but `password` |
| `ControlPackets.ControlPacket.DecodePayload` | src/packet/control_packet.rs:135-149 | the method ends exactly as `PayloadSpec` says |
| `ControlPackets.PayloadTouchesOnlyFlaggedFields` | src/packet/control_packet.rs:135-149 | the payload changes only the client identifier and the fields its flags select. Without the Will flag the will fields keep their values, without the User Name flag the user name does, and without the Password flag the password does |
| `ControlPackets.PayloadClientIdOnly` | src/packet/control_packet.rs:136 | with no flag set, the payload is the client identifier alone |
| `ControlPackets.PayloadCredentialsOnly` | src/packet/control_packet.rs:143-148 | with only the credential flags set, a successful payload is the client identifier, the user name and the password, back to back, and no will field changes |
| `ControlPackets.PayloadWillOnly` | src/packet/control_packet.rs:137-141 | with only the Will flag set, a successful payload is the client identifier followed by the will section; user name and password are not read |
| `ControlPackets.CleanViewsInBounds` | src/packet/control_packet.rs:45-49 | the views of a clean packet lie inside any buffer |
| `ControlPackets.WillInBounds` | src/packet/control_packet.rs:138-140 | with a decoder whose properties end inside the buffer, a successful will section ends inside the buffer, and its topic and payload views lie inside it |
| `ControlPackets.PayloadInBounds` | src/packet/control_packet.rs:135-149 | with such a decoder, a successful payload moves the cursor forward and not past the end of the buffer, and every view it stores lies inside the buffer |
| `ControlPackets.UsernameInBounds` | src/packet/control_packet.rs:143-145 | a successful user name read moves the cursor forward, not past the end of the buffer, and stores a view inside the buffer |
| `ControlPackets.PasswordInBounds` | src/packet/control_packet.rs:146-148 | a successful password read moves the cursor forward, not past the end of the buffer, and stores a view inside the buffer |
| `ControlPackets.ControlPacketInBounds` | src/packet/control_packet.rs:151-163 | with such a decoder, and views inside the buffer to start with, a successful CONNECT decode moves the cursor forward and not past the end of the buffer; every view the packet then holds lies inside the buffer |
| `ControlPackets.FlagSetAsWritten` | src/packet/control_packet.rs:137-146 | the test as written, `flags & mask == 1`, can fire only for a mask and flags that both have bit 0 set |
| `ControlPackets.FlagTestAsWrittenNeverFires` | src/packet/control_packet.rs:137-146 | the test `flags & mask == 1` is false for the Will, User Name and Password masks, whatever the flags; the byte 0x04 has the Will flag set |
| `ControlPackets.FlagTestsAgreeOnlyForBitZero` | src/packet/control_packet.rs:137-146 | the test as written agrees with the bit test exactly when the bit is bit 0 or is clear |
| `ControlPackets.ControlPacketSpec` | src/packet/control_packet.rs:151-163 | a whole CONNECT decode keeps both lists within their capacities, 18 and 7 |
| `ControlPackets.ControlPacket.DecodeControlPacket` | src/packet/control_packet.rs:151-163 | the method ends exactly as `ControlPacketSpec` says: fixed header, kind check, variable header, properties, payload |
| `ControlPackets.ConnectRequiresConnectKind` | src/packet/control_packet.rs:152-154 | a CONNECT decode succeeds only when the header's high nibble is 1. Any other kind stops with `DecodingError` right after the fixed header, and nothing more is read or stored |
| `ControlPackets.ConnectComplete` | src/packet/control_packet.rs:151-163 | conversely, a CONNECT header byte, a remaining length, ten variable-header bytes and a property section filled exactly by properties with room in the list are read whole, every field as encoded. The decode then goes on with the payload right after the section |
| `ControlPackets.ExampleConnectDecodes` | src/packet/control_packet.rs:151-163 | the packet for "MQTT", version 5, flags 0x02, keep alive 60, no properties and client identifier "abc" decodes whole into a clean packet. The client identifier's text is "abc", and no will, user name or password is set |
| `ConnackPackets.ConnackPacket.constructor` | src/packet/connack_packet.rs:13-24 | the packet holds the given fields, with the property list within 18 |
| `ConnackPackets.FixedHeaderSpec` | src/packet/connack_packet.rs:28-33 | reading the fixed header never touches the property list |
| `ConnackPackets.ConnackPacket.DecodeFixedHeader` | src/packet/connack_packet.rs:28-33 | the method ends exactly as `FixedHeaderSpec` says: the first byte, then the remaining length |
| `ConnackPackets.PropertiesSpec` | src/packet/connack_packet.rs:35-55 | the property section keeps the list within 18 |
| `ConnackPackets.ConnackPacket.DecodeProperties` | src/packet/connack_packet.rs:35-55 | the method ends exactly as `PropertiesSpec` says |
| `ConnackPackets.PropertiesLayout` | src/packet/connack_packet.rs:35-55 | a successful section consumes exactly `propertyLen` bytes of properties lying back to back after the length. They are appended in wire order and nothing else changes |
| `ConnackPackets.ConnackPacketSpec` | src/packet/connack_packet.rs:57-66 | a whole CONNACK decode keeps the list within 18 |
| `ConnackPackets.ConnackPacket.DecodeConnackPacket` | src/packet/connack_packet.rs:57-66 | the method ends exactly as `ConnackPacketSpec` says |
| `ConnackPackets.ConnackPacket.Decode` | src/packet/connack_packet.rs:70-72 | `Packet::decode` ends exactly as `ConnackPacketSpec` says, the same as `DecodeConnackPacket` |
| `ConnackPackets.ConnackRequiresConnackKind` | src/packet/connack_packet.rs:59-62 | a CONNACK decode succeeds only when the header's high nibble is 2. Any other kind stops with `DecodingError` right after the fixed header: the flags, the reason code and the properties are not read |
| `ConnackPackets.ConnackLayout` | src/packet/connack_packet.rs:63-65 | a successful CONNACK is the header byte, the remaining length, one flags byte and one reason-code byte, in that order, and then the property section from the next byte |
| `ConnackPackets.PropertiesInBounds` | src/packet/connack_packet.rs:35-55 | with a decoder whose properties end inside the buffer, a successful property section ends after its length and not past the end of the buffer |
| `ConnackPackets.ConnackInBounds` | src/packet/connack_packet.rs:57-66 | with such a decoder, a successful CONNACK decode moves the cursor forward and not past the end of the buffer |
| `ConnackPackets.ConnackComplete` | src/packet/connack_packet.rs:57-66 | conversely, a CONNACK header, flags, a reason code and a property section filled exactly by properties with room in the list decode whole, with every field as encoded |
| `ConnackPackets.ExampleConnackDecodes` | src/packet/connack_packet.rs:57-66 | `[0x20, 0x03, 0x00, 0x00, 0x00]` decodes whole: header 0x20, remaining length 3, flags 0, reason code 0, property length 0, no property added |

## Left out

- Logging. The `log::*` calls are diagnostics with no effect on the decoded state.
- The empty `encode` methods, `get_reason_code` (it only logs) and `ControlPacket`'s `Packet::decode` stub. None of them has behaviour.
- The internals of `Property::decode` and the property identifier table. `src/packet/property.rs` is not part of this model. Property decoding is a parameter `decode`: it either fails, or yields a property `p` after which the reader moves by `p.Len() + 1`. A property stands for its identifier and its value length.
- `VariableByteIntegerDecoder::decode` is not part of this model. `DecodeVbi` implements section 1.5.5 of the MQTT Version 5.0 standard in its place.
- `PacketType::from` and its conversion into `u8` are not part of this model. The kind is the high nibble of the header byte, with the codes of section 2.1.2. Converting a kind into `u8` puts its code in the high nibble.
- The internals of `str::from_utf8`. `ValidUtf8` is well-formedness per section 4 of RFC 3629.
- The `heapless::Vec` implementation. A list is a `seq` with an explicit capacity. A push onto a full list, ignored as written, is an `EncodingError` in the model.
- Rust lifetimes and borrowing. A view is an `(offset, len)` range, and the lemmas prove it lies inside the buffer.
- Integer widths:
  - `position`, `remainLen`, `propertyLen` and the loop counter are unbounded `nat`.
  - A Variable Byte Integer never exceeds 268435455, so `remainLen` and `propertyLen` fit the source's `u32`.
- `BufferReader.EncodedString.Len`, `BufferReader.BinaryData.Len`, `BufferReader.StringPair.Len` and `BufferReader.TopicFilter.Len` compute without the 16-bit overflow of the source's `len()`. The source wraps in release builds and panics in debug builds. `EncodedLenAsWritten` and `EncodedLenWraps` show the wrapping case.
- Panics. An `unwrap` on a failed read, and indexing past the end in `read_*` and `read_message`, become error results. Decoding stops at the first error.
- The cursor after a malformed Variable Byte Integer: four bytes on, because the source advances before it decodes. After a short buffer the cursor does not move.
- `ControlPackets.ControlPacket.AddFlags` follows the code. On a header that does not name PUBLISH it returns without a result and leaves the header unchanged, so the caller is not told that no flags were added.
- The CONNECT kind mismatch aborts with `DecodingError`. The source's fall-through after the log message is not modelled.
- The CONNACK kind mismatch returns early, as in the source. The model also reports it as `DecodingError`, because the source's methods return nothing.
- `Properties.DecodeProperty`: a failed decode is modelled as keeping the cursor where it was, because a `Decoder` only reads the buffer. Where the source's `Property::decode` leaves the cursor after a failure is decided in `src/packet/property.rs`, which is not part of this model.
- `Properties.DecoderInBounds`: the in-bounds lemmas (`PropertyLoopInBounds`, `ControlPacketInBounds`, `ConnackInBounds` and their stage lemmas) assume a property decoder whose properties end inside the buffer. Without that assumption an abstract decoder may report a property running past the end.
- `BufferReader.EmptyBinary`: the source's `BinaryData::new` points at a one-byte constant `&[0]` outside the buffer, with length 0. The model uses the empty range at offset 0, so its view lies inside every buffer. Only the length and the absence of data agree with the source.
- Helper methods. `decode_payload` and `decode_control_packet` are each one method in the source. The model splits them into `DecodeWill`, `DecodeUsername`, `DecodePassword` and `DecodeVariableHeader`, which run the same reads in the same order.
- `ConnackPacket` has no constructor in the source; the model's constructor stands for its struct literal.
- Transport, stream reassembly and packet dispatch do not appear in these files.

## Findings

| source | as written | input that shows it | evidently intended | confidence | as-written member | corrected member |
|---|---|---|---|---|---|---|
| src/utils/buffer_reader.rs:141-145 | the continuation test is `b & 0x80 == 1`, which no byte passes, so every Variable Byte Integer is taken to be one byte long | `[0x80, 0x01]` (the value 128, two bytes) | the continuation bit is set when `b & 0x80 != 0` | high (not executed) | `BufferReader.VbiLengthAsWrittenIsWrong` | `BufferReader.ParseVbiIsVbi` |
| src/utils/buffer_reader.rs:207-211 | `read_binary` returns the data but leaves the cursor just after the length prefix | `[0x00, 0x01, 0xAB]`: the cursor ends at 2, on the data | the cursor moves past the data, to `pos + 2 + len`, as in `read_string` | high (not executed) | `BufferReader.BinaryAsWrittenDoesNotAdvance` | `BufferReader.ParseBinaryView` |
| src/utils/buffer_reader.rs:43-45 | `len()` adds 2 in 16 bits, which overflows: it wraps in release builds and panics in debug builds | a string of length 65534: in a release build `len()` is 0, but the string occupies 65536 bytes | the encoded size `len + 2` without overflow | medium (not executed) | `BufferReader.EncodedLenWraps` | `BufferReader.ParseStringView` |
| src/packet/control_packet.rs:94-109 | the property loop decodes before it checks, and exits only when the count equals the declared length; a failed decode leaves the count unchanged | an empty section (declared length 0) followed by a property that decodes: the loop reads that property, the count passes 0, and the loop keeps decoding past the section; it spins for good if a failed decode leaves the cursor in place | check the count before each decode, and stop once it reaches the declared length; overshoot or a failed decode is `DecodingError` | high (not executed) | `Properties.LoopAsWrittenNeverStops` | `Properties.PropertyLoopSound` |
| src/packet/control_packet.rs:137 | the Will test is `flags & (1 << 2) == 1`, which is never true; the User Name and Password tests at lines 143 and 146 have the same form | connect flags `0x04`: the Will flag is set, but the will section is not read | a flag is set when the masked value is non-zero | high (not executed) | `ControlPackets.FlagTestAsWrittenNeverFires` | `ControlPackets.PayloadWillOnly` |
