/**
 The PUBLISH packet (publish.go): the printer, the parser, and their round trips.
 */
module PublishCodec {
  import opened Bytes
  import opened Messages
  import opened Framing
  import opened Utf8

  const PUBLISH_HEADER: byte := 0x30

  // ---- What the packet is (section 3.3 of MQTT 3.1.1) ----

  function FlagOf(m: Message): byte
    requires m.qos <= 2
  {
    (if m.retain then 1 else 0) + 2 * m.qos + (if m.dup then 8 else 0)
  }

  /** Topic, packet identifier if there is one, and payload. */
  function Body(m: Message): seq<byte>
    requires |m.topic| <= 0xFFFF
  {
    PackUint16(|m.topic|) + m.topic + (if m.qos == 0 then [] else PackUint16(m.id)) + m.payload
  }

  function PublishPacket(m: Message): Outcome<seq<byte>> {
    if Fits(m) then Packet(PUBLISH_HEADER + FlagOf(m), Body(m)) else Panic
  }

  /** What the parser makes of a flag and of what follows the topic. */
  function ParseRest(flag: byte, topic: seq<byte>, rest: seq<byte>): Outcome<Message> {
    var qos := flag / 2 % 4;
    if qos == 0 then Ok(Message(topic, 0, 0, HasBit(flag, 1), HasBit(flag, 8), rest))
    else if |rest| < 2 then Err(InvalidPacketLength)
    else Ok(Message(topic, UnpackUint16(rest), qos, HasBit(flag, 1), HasBit(flag, 8), rest[2..]))
  }

  /** What the parser makes of a flag and contents. */
  function ParseSpec(flag: byte, contents: seq<byte>): Outcome<Message> {
    if flag / 2 % 4 == 3 then Err(InvalidPacket)
    else
      match UnpackSpec(contents)
      case Ok(u) =>
        if u.consumed > |contents| then Err(InvalidPacketLength)
        else ParseRest(flag, u.text, contents[u.consumed..])
      case Err(e) => Err(e)
      case Panic => Panic
  }

  /** The packet byte for byte, as section 3.3 of MQTT 3.1.1 lays it out. */
  lemma PublishLayout(m: Message)
    requires Fits(m)
    ensures PublishPacket(m)
            == Ok([0x30 + (if m.dup then 8 else 0) + 2 * m.qos + (if m.retain then 1 else 0)]
                  + Digits(2 + |m.topic| + (if m.qos == 0 then 0 else 2) + |m.payload|)
                  + ([|m.topic| / 256, |m.topic| % 256] + m.topic
                     + (if m.qos == 0 then [] else [m.id / 256, m.id % 256]) + m.payload))
  {
  }

  // ---- The code ----

  /** `pktPublish.Pack`: header bits are set one by one; bad QoS and overlong parts panic. */
  method PackPublish(m: Message) returns (r: Outcome<seq<byte>>)
    ensures r == PublishPacket(m)
  {
    var header: byte := PUBLISH_HEADER;
    if m.retain {
      header := SetBit(header, 0x01);
    }
    match m.qos {
      case 0 =>
      case 1 => header := SetBit(header, 0x02);
      case 2 => header := SetBit(header, 0x04);
      case _ => return Panic;
    }
    if m.dup {
      header := SetBit(header, 0x08);
    }
    assert header == PUBLISH_HEADER + FlagOf(m);
    match PackBytes(m.topic) {
      case Panic => return Panic;
      case Ok(topic) =>
        var head := topic;
        if m.qos != 0 {
          head := head + PackUint16(m.id);
        }
        r := Pack(header, [head, m.payload]);
        assert Flatten([m.payload]) == m.payload + Flatten([]) by { assert [m.payload][1..] == []; }
        assert [head, m.payload][1..] == [m.payload];
        assert Flatten([head, m.payload]) == Body(m);
    }
  }

  /** `pktPublish.Parse`: the fields of the message are filled in as the contents are read. */
  method Parse(flag: byte, contents: seq<byte>) returns (r: Outcome<Message>)
    ensures r == ParseSpec(flag, contents)
  {
    var m := Message([], 0, 0, HasBit(flag, 0x01), HasBit(flag, 0x08), []);
    match flag / 2 % 4 {
      case 0 =>
      case 1 => m := m.(qos := 1);
      case 2 => m := m.(qos := 2);
      case _ => return Err(InvalidPacket);
    }
    var u := UnpackString(contents);
    match u {
      case Err(e) => return Err(e);
      case Ok(t) =>
        var n, id := t.consumed, 0;
        m := m.(topic := t.text);
        if m.qos != 0 {
          if |contents| - n < 2 {
            return Err(InvalidPacketLength);
          }
          m := m.(id := UnpackUint16(contents[n..]));
          id := 2;
        }
        m := m.(payload := contents[n + id..]);
        assert contents[n..][id..] == contents[n + id..];
        return Ok(m);
    }
  }

  // ---- Round trips ----

  lemma Flags(m: Message)
    requires m.qos <= 2
    ensures var f := FlagOf(m); f < 0x10 && f / 2 % 4 == m.qos && HasBit(f, 1) == m.retain && HasBit(f, 8) == m.dup
  {
  }

  lemma FlagsBack(flag: byte, m: Message)
    requires flag < 0x10 && m.qos <= 2 && m.qos == flag / 2 % 4 && m.retain == HasBit(flag, 1) &&
             m.dup == HasBit(flag, 8)
    ensures FlagOf(m) == flag
  {
  }

  /** What of a message a PUBLISH packet carries: no packet identifier at QoS 0. */
  function Carried(m: Message): Message {
    if m.qos == 0 then m.(id := 0) else m
  }

  /** Identifier and payload: what follows the topic. */
  function AfterTopic(m: Message): seq<byte> {
    (if m.qos == 0 then [] else PackUint16(m.id)) + m.payload
  }

  lemma BodySplit(m: Message)
    requires |m.topic| <= 0xFFFF
    ensures Body(m) == PackUint16(|m.topic|) + m.topic + AfterTopic(m)
    ensures |Body(m)| == PublishLength(m)
  {
    Associate(PackUint16(|m.topic|) + m.topic, if m.qos == 0 then [] else PackUint16(m.id), m.payload);
  }

  lemma ParseAfterTopic(m: Message, text: seq<byte>)
    requires m.qos <= 2
    ensures ParseRest(FlagOf(m), text, AfterTopic(m)) == Ok(Carried(m).(topic := text))
  {
    Flags(m);
    if m.qos != 0 {
      assert AfterTopic(m)[2..] == m.payload;
    } else {
      assert AfterTopic(m) == m.payload;
    }
  }

  lemma Tail(a: seq<byte>, b: seq<byte>, c: seq<byte>)
    ensures (a + b + c)[|a| + |b|..] == c
  {
  }

  /** Reading a packed message: its flag and contents, and exactly the rest of the stream. */
  lemma ReadPublished(m: Message, rest: seq<byte>)
    requires Fits(m)
    ensures PublishPacket(m).Ok?
    ensures ReadSpec(PublishPacket(m).value + rest) == Ok(Read(PUBLISH_HEADER, FlagOf(m), Body(m), rest))
  {
    BodySplit(m);
    ReadTyped(PUBLISH_HEADER, FlagOf(m), Body(m), rest);
  }

  /** Parsing the contents of a packed message. */
  lemma ParsePublished(m: Message)
    requires Fits(m)
    ensures ParseSpec(FlagOf(m), Body(m))
            == if 0 in m.topic then Err(InvalidRune) else Ok(Carried(m).(topic := Normalised(m.topic)))
  {
    Flags(m);
    BodySplit(m);
    StringRoundTrip(m.topic, AfterTopic(m));
    if 0 !in m.topic {
      Tail(PackUint16(|m.topic|), m.topic, AfterTopic(m));
      ParseAfterTopic(m, Normalised(m.topic));
    }
  }

  /**
   Pack, then read, then parse: for every message that packs, the message comes back
   if and only if its topic is well-formed UTF-8 without U+0000; exactly the packet is consumed.
   */
  lemma PublishRoundTrip(m: Message, rest: seq<byte>)
    requires Fits(m)
    ensures PublishPacket(m).Ok?
    ensures ReadSpec(PublishPacket(m).value + rest) == Ok(Read(PUBLISH_HEADER, FlagOf(m), Body(m), rest))
    ensures ParseSpec(FlagOf(m), Body(m)) == Ok(Carried(m)) <==> CleanText(m.topic)
  {
    ReadPublished(m, rest);
    ParsePublished(m);
    NormalisedExact(m.topic);
  }

  /** What the parser refuses, and how: an undefined QoS, then lengths that do not add up, then U+0000 in the topic. */
  lemma ParseRefusesExactly(flag: byte, contents: seq<byte>)
    ensures var r, n := ParseSpec(flag, contents), |contents|;
            var fits := n >= 2 && contents[0] as int * 256 + contents[1] as int + 2 <= n;
            var text := if fits then contents[2..contents[0] as int * 256 + contents[1] as int + 2] else [];
            (r == Err(InvalidPacket) <==> flag / 2 % 4 == 3) &&
            (flag / 2 % 4 != 3 ==>
               (r == Err(InvalidRune) <==> fits && 0 in text) &&
               (r == Err(InvalidPacketLength) <==>
                  !fits || (0 !in text && flag / 2 % 4 != 0 && n < |text| + 4)))
  {
    if |contents| >= 2 && UnpackUint16(contents) + 2 <= |contents| {
      ZeroRune(contents[2..UnpackUint16(contents) + 2]);
    }
  }

  /** The bytes of the topic in the contents of a PUBLISH. */
  function RawTopic(contents: seq<byte>): seq<byte>
    requires |contents| >= 2 && UnpackUint16(contents) + 2 <= |contents|
  {
    contents[2..UnpackUint16(contents) + 2]
  }

  lemma RawSplit(contents: seq<byte>)
    requires |contents| >= 2 && UnpackUint16(contents) + 2 <= |contents|
    ensures var raw := RawTopic(contents);
            |raw| <= 0xFFFF && contents == PackUint16(|raw|) + raw + contents[|raw| + 2..]
  {
    PackUnpackUint16(contents);
    var n := UnpackUint16(contents);
    assert contents == contents[..2] + contents[2..n + 2] + contents[n + 2..];
  }

  /** Two length-prefixed strings before the same bytes are equal only when the strings are. */
  lemma PrefixedEqual(a: seq<byte>, b: seq<byte>, rest: seq<byte>)
    requires |a| <= 0xFFFF && |b| <= 0xFFFF
    ensures PackUint16(|a|) + a + rest == PackUint16(|b|) + b + rest <==> a == b
  {
    var x, y := PackUint16(|a|) + a + rest, PackUint16(|b|) + b + rest;
    if x == y {
      assert x[2..|a| + 2] == a && y[2..|b| + 2] == b;
    }
  }

  /** What a successful parse found: the converted topic, and after it the identifier and payload. */
  lemma ParseFound(flag: byte, contents: seq<byte>)
    requires flag < 0x10 && ParseSpec(flag, contents).Ok?
    ensures |contents| >= 2 && UnpackUint16(contents) + 2 <= |contents|
    ensures var m, raw := ParseSpec(flag, contents).value, RawTopic(contents);
            m.qos <= 2 && FlagOf(m) == flag && m.topic == Normalised(raw) && AfterTopic(m) == contents[|raw| + 2..]
  {
    var m := ParseSpec(flag, contents).value;
    FlagsBack(flag, m);
    UnpackedText(contents);
    var rest := contents[UnpackUint16(contents) + 2..];
    if m.qos != 0 {
      PackUnpackUint16(rest);
      assert rest == rest[..2] + rest[2..];
    }
  }

  /**
   Parse, then pack: a parsed packet is restored, flag and contents, if and only if its
   topic was well-formed UTF-8 (otherwise the topic was rewritten by the rune conversion).
   */
  lemma ParseThenPack(flag: byte, contents: seq<byte>)
    requires flag < 0x10 && ParseSpec(flag, contents).Ok?
    ensures |contents| >= 2 && UnpackUint16(contents) + 2 <= |contents|
    ensures var m := ParseSpec(flag, contents).value;
            m.qos <= 2 && FlagOf(m) == flag &&
            (ValidUtf8(RawTopic(contents)) <==> |m.topic| <= 0xFFFF && Body(m) == contents)
  {
    ParseFound(flag, contents);
    RawSplit(contents);
    var m, raw := ParseSpec(flag, contents).value, RawTopic(contents);
    NormalisedExact(raw);
    if |m.topic| <= 0xFFFF {
      BodySplit(m);
      PrefixedEqual(m.topic, raw, AfterTopic(m));
    }
  }
}
