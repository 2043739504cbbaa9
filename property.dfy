/** The loop over a property section (section 2.2.2 of the MQTT Version 5.0
    standard) that the CONNECT and CONNACK decoders share.

    Decoding one property is a collaborator whose internals are not part of
    this model: it is a parameter `decode` that either fails or yields a
    property `p`, and the reader then moves past its identifier byte and its
    `p.Len()` value bytes. */
module Properties {
  import opened Bytes
  import opened BufferReader

  /** A decoded property: its identifier byte and the number of bytes its
      value occupies (what `Property::len` reports). */
  datatype Property = Property(id: byte, valueLen: nat) {
    function Len(): nat {
      valueLen
    }
  }

  /** `Property::decode` at a position of a buffer. */
  type Decoder = (seq<byte>, nat) -> Result<Property>

  /** Reads one property through the reader: on success the cursor moves by
      exactly `Len() + 1`; on failure it stays. */
  method DecodeProperty(reader: BuffReader, decode: Decoder) returns (r: Result<Property>)
    modifies reader
    ensures r == decode(reader.buffer, old(reader.position))
    ensures r.Ok? ==> reader.position == old(reader.position) + r.value.Len() + 1
    ensures r.Err? ==> reader.position == old(reader.position)
  {
    r := decode(reader.buffer, reader.position);
    if r.Ok? {
      reader.IncrementPosition(r.value.Len() + 1);
    }
  }

  /** The outcome of a property loop: its result, the list as it then stands
      (also after a failure) and the cursor position. */
  datatype ListStep = ListStep(result: Result<()>, list: seq<Property>, next: nat)

  /** The loop over a property section whose length was declared as
      `declared`, `consumed` bytes of it read so far, appending to `list`
      (capacity `cap`). It stops as soon as `consumed` reaches `declared`:
      landing exactly on it is success, going past it a `DecodingError`. A
      property that does not decode is a `DecodingError`; a property for which
      the list has no room is an `EncodingError`. */
  function PropertyLoop(buf: seq<byte>, pos: nat, consumed: nat, declared: nat, cap: nat,
                        decode: Decoder, list: seq<Property>): (s: ListStep)
    ensures |list| <= cap ==> |s.list| <= cap
    ensures |list| <= |s.list| && s.list[..|list|] == list
    decreases if consumed <= declared then declared - consumed else 0
  {
    if consumed >= declared then
      ListStep(if consumed == declared then Ok(()) else Err(DecodingError), list, pos)
    else
      var p := decode(buf, pos);
      if p.Err? then ListStep(Err(DecodingError), list, pos)
      else if |list| >= cap then ListStep(Err(EncodingError), list, pos + p.value.Len() + 1)
      else
        var s := PropertyLoop(buf, pos + p.value.Len() + 1, consumed + p.value.Len() + 1,
                              declared, cap, decode, list + [p.value]);
        assert s.list[..|list|] == (list + [p.value])[..|list|];
        s
  }

  /** Reads the properties of a section of `declared` bytes, appending them
      to `list`. */
  method DecodePropertyList(reader: BuffReader, decode: Decoder, declared: nat, cap: nat,
                            list: seq<Property>)
    returns (r: Result<()>, props: seq<Property>)
    modifies reader
    ensures ListStep(r, props, reader.position)
         == PropertyLoop(reader.buffer, old(reader.position), 0, declared, cap, decode, list)
  {
    var x := 0;
    props := list;
    while x < declared
      invariant PropertyLoop(reader.buffer, reader.position, x, declared, cap, decode, props)
             == PropertyLoop(reader.buffer, old(reader.position), 0, declared, cap, decode, list)
      decreases declared - x
    {
      var prop := DecodeProperty(reader, decode);
      if prop.Err? {
        return Err(DecodingError), props;
      }
      if |props| >= cap {
        return Err(EncodingError), props;
      }
      x := x + prop.value.Len() + 1;
      props := props + [prop.value];
    }
    if x > declared {
      return Err(DecodingError), props;
    }
    return Ok(()), props;
  }

  // ---------------------------------------------------------------------------
  // Properties of the loop
  // ---------------------------------------------------------------------------

  /** Bytes a list of properties occupies on the wire. */
  function Span(props: seq<Property>): nat {
    if props == [] then 0 else props[0].Len() + 1 + Span(props[1..])
  }

  /** `props` are encoded back to back at `pos`. */
  predicate PropertiesAt(buf: seq<byte>, pos: nat, props: seq<Property>, decode: Decoder)
    decreases |props|
  {
    props == [] ||
    (&& decode(buf, pos) == Ok(props[0])
     && PropertiesAt(buf, pos + props[0].Len() + 1, props[1..], decode))
  }

  /** A successful loop read properties lying back to back from `pos` that
      fill the rest of the declared length exactly, and the cursor stands
      just after them. */
  lemma {:induction false} PropertyLoopSound(buf: seq<byte>, pos: nat, consumed: nat, declared: nat,
                                             cap: nat, decode: Decoder, list: seq<Property>)
    requires PropertyLoop(buf, pos, consumed, declared, cap, decode, list).result.Ok?
    ensures var s := PropertyLoop(buf, pos, consumed, declared, cap, decode, list);
      && consumed <= declared
      && PropertiesAt(buf, pos, s.list[|list|..], decode)
      && Span(s.list[|list|..]) == declared - consumed
      && s.next == pos + (declared - consumed)
    decreases if consumed <= declared then declared - consumed else 0
  {
    var s := PropertyLoop(buf, pos, consumed, declared, cap, decode, list);
    if consumed < declared {
      var prop := decode(buf, pos).value;
      var list' := list + [prop];
      PropertyLoopSound(buf, pos + prop.Len() + 1, consumed + prop.Len() + 1, declared, cap,
                        decode, list');
      var added := s.list[|list|..];
      assert added[0] == prop;
      assert added[1..] == s.list[|list'|..];
    } else {
      assert s.list[|list|..] == [];
    }
  }

  /** Conversely, properties lying back to back that fill the declared
      length exactly, with room for all of them, are all read. */
  lemma {:induction false} PropertyLoopComplete(buf: seq<byte>, pos: nat, consumed: nat, declared: nat,
                                                cap: nat, decode: Decoder, list: seq<Property>,
                                                props: seq<Property>)
    requires PropertiesAt(buf, pos, props, decode)
    requires consumed + Span(props) == declared
    requires |list| + |props| <= cap
    ensures PropertyLoop(buf, pos, consumed, declared, cap, decode, list)
         == ListStep(Ok(()), list + props, pos + Span(props))
    decreases |props|
  {
    if props == [] {
      assert list + props == list;
    } else {
      var prop := props[0];
      PropertyLoopComplete(buf, pos + prop.Len() + 1, consumed + prop.Len() + 1, declared, cap,
                           decode, list + [prop], props[1..]);
      assert list + [prop] + props[1..] == list + props;
    }
  }

  /** Properties lying back to back inside the declared length that are more
      than the list has room for end in `EncodingError`, once the list is
      full. */
  lemma {:induction false} PropertyLoopFull(buf: seq<byte>, pos: nat, consumed: nat, declared: nat,
                                            cap: nat, decode: Decoder, list: seq<Property>,
                                            props: seq<Property>)
    requires PropertiesAt(buf, pos, props, decode)
    requires consumed + Span(props) <= declared
    requires |list| <= cap < |list| + |props|
    ensures PropertyLoop(buf, pos, consumed, declared, cap, decode, list).result == Err(EncodingError)
    decreases |props|
  {
    if |list| < cap {
      var prop := props[0];
      PropertyLoopFull(buf, pos + prop.Len() + 1, consumed + prop.Len() + 1, declared, cap,
                       decode, list + [prop], props[1..]);
    }
  }

  lemma SpanOfPrefix(props: seq<Property>, k: nat)
    requires 0 < k <= |props|
    ensures Span(props[..k]) == props[0].Len() + 1 + Span(props[1..][..k - 1])
  {
    assert props[..k][1..] == props[1..][..k - 1];
  }

  /** A declared length that falls inside a property, rather than on the
      boundary between two, makes the loop fail with `DecodingError`; it
      never reads on past the declared end. */
  lemma {:induction false} PropertyLoopOvershoot(buf: seq<byte>, pos: nat, consumed: nat, declared: nat,
                                                 cap: nat, decode: Decoder, list: seq<Property>,
                                                 props: seq<Property>)
    requires PropertiesAt(buf, pos, props, decode)
    requires |list| + |props| <= cap
    requires declared < consumed + Span(props)
    requires forall k :: 0 <= k <= |props| ==> consumed + Span(props[..k]) != declared
    ensures PropertyLoop(buf, pos, consumed, declared, cap, decode, list).result == Err(DecodingError)
    decreases |props|
  {
    assert props[..0] == [];
    if consumed < declared {
      assert props != [];
      var prop := props[0];
      forall k | 0 <= k <= |props[1..]|
        ensures consumed + prop.Len() + 1 + Span(props[1..][..k]) != declared
      {
        SpanOfPrefix(props, k + 1);
      }
      PropertyLoopOvershoot(buf, pos + prop.Len() + 1, consumed + prop.Len() + 1, declared, cap,
                            decode, list + [prop], props[1..]);
    }
  }

  /** A property that fails to decode inside the declared length is a
      `DecodingError`, with the cursor where that property starts. */
  lemma PropertyLoopDecodeFailure(buf: seq<byte>, pos: nat, consumed: nat, declared: nat,
                                  cap: nat, decode: Decoder, list: seq<Property>)
    requires consumed < declared && decode(buf, pos).Err?
    ensures PropertyLoop(buf, pos, consumed, declared, cap, decode, list)
         == ListStep(Err(DecodingError), list, pos)
  {
  }

  /** A declared length of 0 reads nothing and adds nothing. */
  lemma PropertyLoopEmpty(buf: seq<byte>, pos: nat, cap: nat, decode: Decoder, list: seq<Property>)
    ensures PropertyLoop(buf, pos, 0, 0, cap, decode, list) == ListStep(Ok(()), list, pos)
  {
  }

  /** A decoder that keeps to the buffer: every property it yields at a
      position ends inside the buffer. */
  ghost predicate DecoderInBounds(decode: Decoder, buf: seq<byte>) {
    forall pos: nat :: decode(buf, pos).Ok? ==> pos + decode(buf, pos).value.Len() + 1 <= |buf|
  }

  /** With such a decoder the loop never moves the cursor back and never
      past the end of the buffer, whatever its result. */
  lemma {:induction false} PropertyLoopInBounds(buf: seq<byte>, pos: nat, consumed: nat, declared: nat,
                                                cap: nat, decode: Decoder, list: seq<Property>)
    requires DecoderInBounds(decode, buf)
    requires pos <= |buf|
    ensures var s := PropertyLoop(buf, pos, consumed, declared, cap, decode, list);
      pos <= s.next <= |buf|
    decreases if consumed <= declared then declared - consumed else 0
  {
    if consumed < declared && decode(buf, pos).Ok? {
      var p := decode(buf, pos).value;
      assert pos + p.Len() + 1 <= |buf|;
      if |list| < cap {
        PropertyLoopInBounds(buf, pos + p.Len() + 1, consumed + p.Len() + 1, declared, cap, decode,
                             list + [p]);
      }
    }
  }

  // ---------------------------------------------------------------------------
  // The loop as written
  // ---------------------------------------------------------------------------

  /** The loops as written: decode (a failure is only logged), add
      `Len() + 1`, and stop only when the count equals the declared length.
      True when that happens within `fuel` rounds. The count never goes down,
      so once it has passed the declared length the loop never stops. */
  function LoopStopsAsWritten(buf: seq<byte>, pos: nat, x: nat, declared: nat,
                              decode: Decoder, fuel: nat): (stops: bool)
    ensures x > declared ==> !stops
    decreases fuel
  {
    if fuel == 0 then false
    else
      var p := decode(buf, pos);
      var pos' := if p.Ok? then pos + p.value.Len() + 1 else pos;
      var x' := if p.Ok? then x + p.value.Len() + 1 else x;
      x' == declared || LoopStopsAsWritten(buf, pos', x', declared, decode, fuel - 1)
  }

  /** An empty property section (declared length 0) with a decodable
      property after it: the loop as written decodes that property anyway,
      the count passes 0, and the loop never stops, whereas the corrected
      loop reads nothing. A section whose declared length falls inside a
      property behaves the same way once the count passes it. */
  lemma LoopAsWrittenNeverStops(buf: seq<byte>, pos: nat, cap: nat, decode: Decoder, fuel: nat)
    requires decode(buf, pos).Ok?
    ensures !LoopStopsAsWritten(buf, pos, 0, 0, decode, fuel)
    ensures PropertyLoop(buf, pos, 0, 0, cap, decode, []) == ListStep(Ok(()), [], pos)
  {
    if fuel > 0 {
      var p := decode(buf, pos).value;
      assert !LoopStopsAsWritten(buf, pos + p.Len() + 1, p.Len() + 1, 0, decode, fuel - 1);
    }
  }

  /** When a failed decode keeps the cursor where it was (as a `Decoder` does:
      it only reads), the failure repeats forever: neither the cursor nor the
      count moves. */
  lemma {:induction false} StuckAfterFailure(buf: seq<byte>, pos: nat, x: nat, declared: nat,
                                             decode: Decoder, fuel: nat)
    requires decode(buf, pos).Err? && x != declared
    ensures !LoopStopsAsWritten(buf, pos, x, declared, decode, fuel)
    decreases fuel
  {
    if fuel > 0 {
      StuckAfterFailure(buf, pos, x, declared, decode, fuel - 1);
    }
  }
}
