/**
 The CONNECT packet (connect.go), with a decoder written from section 3.1 of MQTT 3.1.1.
 */
module ConnectCodec {
  import opened Bytes
  import opened Messages
  import opened Framing
  import opened Utf8
  import opened Requests

  const CONNECT: byte := 0x10

  /** `pktConnect`; an empty user name or password stands for an absent one. */
  datatype Connect = Connect(level: byte, clean: bool, keepAlive: uint16, clientId: seq<byte>,
                             userName: seq<byte>, password: seq<byte>, will: Option<Message>)

  // ---- What the packet is ----

  function Bit(b: bool, weight: byte): byte {
    if b then weight else 0
  }

  /** The bits of the QoS of a will: none for a QoS that is not defined. */
  function WillQoS(m: Message): (q: byte)
    ensures q <= 2
  {
    if m.qos <= 2 then m.qos else 0
  }

  /** The flags for the session and the will. */
  function LowFlags(clean: bool, will: Option<Message>): (f: byte)
    ensures f < 0x40
  {
    Bit(clean, 0x02) + if will.None? then 0 else 0x04 + 0x08 * WillQoS(will.value) + Bit(will.value.retain, 0x20)
  }

  function Flags(c: Connect): byte {
    LowFlags(c.clean, c.will) + Bit(c.userName != [], 0x80) + Bit(c.password != [], 0x40)
  }

  /** No part of the payload is too long for its length field. */
  predicate Packable(c: Connect) {
    |c.clientId| <= 0xFFFF && |c.userName| <= 0xFFFF && |c.password| <= 0xFFFF &&
    (c.will.Some? ==> |c.will.value.topic| <= 0xFFFF && |c.will.value.payload| <= 0xFFFF)
  }

  function Optional(s: seq<byte>): (r: seq<byte>)
    requires |s| <= 0xFFFF
    ensures |r| <= |s| + 2
  {
    if s == [] then [] else Field(s)
  }

  function WillPart(will: Option<Message>): (r: seq<byte>)
    requires will.Some? ==> |will.value.topic| <= 0xFFFF && |will.value.payload| <= 0xFFFF
    ensures |r| <= 0x2_0002
  {
    if will.None? then [] else Field(will.value.topic) + Field(will.value.payload)
  }

  /** Section 3.1.3: client identifier, will topic and message, user name, password. */
  function Payload(c: Connect): (r: seq<byte>)
    requires Packable(c)
    ensures |r| <= 0x5_0005
  {
    Field(c.clientId) + (WillPart(c.will) + (Optional(c.userName) + Optional(c.password)))
  }

  /** Section 3.1.2: protocol name, level, flags, keep-alive. */
  function VariableHeader(c: Connect): (r: seq<byte>)
    ensures |r| == 10
  {
    [0x00, 0x04, 0x4D, 0x51, 0x54, 0x54, c.level, Flags(c)] + PackUint16(c.keepAlive)
  }

  function Body(c: Connect): (r: seq<byte>)
    requires Packable(c)
    ensures |r| <= MAX_REMAINING
  {
    VariableHeader(c) + Payload(c)
  }

  function ConnectPacket(c: Connect): Outcome<seq<byte>> {
    if Packable(c) then Packet(CONNECT, Body(c)) else Panic
  }

  /** The packet byte for byte: type, remaining length, protocol name, level, flags, keep-alive, payload. */
  lemma ConnectLayout(c: Connect)
    requires Packable(c)
    ensures ConnectPacket(c)
            == Ok([0x10] + Digits(10 + |Payload(c)|)
                  + ([0x00, 0x04, 0x4D, 0x51, 0x54, 0x54, c.level, Flags(c)]
                     + [c.keepAlive / 256, c.keepAlive % 256] + Payload(c)))
  {
  }

  // ---- The code ----

  lemma FlattenThree(a: seq<byte>, b: seq<byte>, c: seq<byte>)
    ensures Flatten([a, b, c]) == (a + b) + c
  {
    assert [a, b, c][1..] == [b, c];
    FlattenTwo(b, c);
  }

  /** The part of `pktConnect.Pack` for a will. */
  method AddWill(flag: byte, payload: seq<byte>, w: Message) returns (r: Outcome<(byte, seq<byte>)>)
    requires flag in {0x00, 0x02}
    ensures |w.topic| > 0xFFFF || |w.payload| > 0xFFFF ==> r == Panic
    ensures |w.topic| <= 0xFFFF && |w.payload| <= 0xFFFF ==>
              r == Ok((flag + 0x04 + 0x08 * WillQoS(w) + Bit(w.retain, 0x20), payload + WillPart(Some(w))))
  {
    var f := SetBit(flag, 0x04);
    match w.qos {
      case 1 => f := SetBit(f, 0x08);
      case 2 => f := SetBit(f, 0x10);
      case _ =>
    }
    if w.retain {
      f := SetBit(f, 0x20);
    }
    var p :- AppendBytes(payload, w.topic);
    p :- AppendBytes(p, w.payload);
    Associate(payload, Field(w.topic), Field(w.payload));
    return Ok((f, p));
  }

  /** The part of `pktConnect.Pack` for a user name or a password. */
  method AddText(flag: byte, mask: byte, payload: seq<byte>, s: seq<byte>) returns (r: Outcome<(byte, seq<byte>)>)
    requires (mask == 0x80 && flag < 0x40) || (mask == 0x40 && flag % 0x80 < 0x40)
    ensures |s| > 0xFFFF ==> r == Panic
    ensures |s| <= 0xFFFF ==>
              flag + Bit(s != [], mask) < 0x100 && r == Ok((flag + Bit(s != [], mask), payload + Optional(s)))
  {
    var f, p := flag, payload;
    if s != [] {
      f := SetBit(f, mask);
      p :- AppendBytes(p, s);
    } else {
      assert p + [] == p;
    }
    return Ok((f, p));
  }

  /** The part of `pktConnect.Pack` for client identifier, session and will. */
  method Begin(c: Connect) returns (r: Outcome<(byte, seq<byte>)>)
    ensures r.Panic? ==> !Packable(c)
    ensures !r.Panic? ==>
              |c.clientId| <= 0xFFFF &&
              (c.will.Some? ==> |c.will.value.topic| <= 0xFFFF && |c.will.value.payload| <= 0xFFFF) &&
              r == Ok((LowFlags(c.clean, c.will), Field(c.clientId) + WillPart(c.will)))
  {
    var payload :- AppendBytes([], c.clientId);
    var flag: byte := 0;
    if c.clean {
      flag := SetBit(flag, 0x02);
    }
    assert payload == Field(c.clientId);
    if c.will.Some? {
      r := AddWill(flag, payload, c.will.value);
    } else {
      assert payload + [] == payload;
      r := Ok((flag, payload));
    }
  }

  /** `pktConnect.Pack`: flags and payload are built up side by side. */
  method PackConnect(c: Connect) returns (r: Outcome<seq<byte>>)
    ensures r == ConnectPacket(c)
  {
    var f := Begin(c);
    if f.Panic? {
      return Panic;
    }
    var u := AddText(f.value.0, 0x80, f.value.1, c.userName);
    if u.Panic? {
      return Panic;
    }
    var p := AddText(u.value.0, 0x40, u.value.1, c.password);
    if p.Panic? {
      return Panic;
    }
    PayloadGrouping(c, f.value.1);
    var flag, payload := p.value.0, p.value.1;
    PacketParts(c, flag, payload);
    r := Pack(CONNECT, [[0x00, 0x04, 0x4D, 0x51, 0x54, 0x54, c.level, flag], PackUint16(c.keepAlive), payload]);
  }

  lemma PacketParts(c: Connect, flag: byte, payload: seq<byte>)
    requires Packable(c) && flag == Flags(c) && payload == Payload(c)
    ensures Flatten([[0x00, 0x04, 0x4D, 0x51, 0x54, 0x54, c.level, flag], PackUint16(c.keepAlive), payload]) == Body(c)
  {
    FlattenThree([0x00, 0x04, 0x4D, 0x51, 0x54, 0x54, c.level, flag], PackUint16(c.keepAlive), payload);
  }

  lemma PayloadGrouping(c: Connect, front: seq<byte>)
    requires Packable(c) && front == Field(c.clientId) + WillPart(c.will)
    ensures front + Optional(c.userName) + Optional(c.password) == Payload(c)
  {
    Associate(front, Optional(c.userName), Optional(c.password));
    Associate(Field(c.clientId), WillPart(c.will), Optional(c.userName) + Optional(c.password));
  }

  // ---- A server reading it ----

  function TakeIf(present: bool, b: seq<byte>): Taken {
    if present then TakeField(b) else Taken([], b)
  }

  datatype Willed = Willed(will: Option<Message>, rest: seq<byte>) | NoWill

  function TakeWill(flags: byte, b: seq<byte>): Willed {
    if !HasBit(flags, 0x04) then (if flags / 8 % 4 != 0 || HasBit(flags, 0x20) then NoWill else Willed(None, b))
    else
      match TakeField(b)
      case Missing => NoWill
      case Taken(topic, rest) =>
        match TakeField(rest)
        case Missing => NoWill
        case Taken(payload, rest') =>
          Willed(Some(Message(topic, 0, flags / 8 % 4, HasBit(flags, 0x20), false, payload)), rest')
  }

  /** The payload, read as the flags say. */
  function DecodePayload(level: byte, flags: byte, keepAlive: uint16, b: seq<byte>): Option<Connect> {
    match TakeField(b)
    case Missing => None
    case Taken(clientId, b1) =>
      match TakeWill(flags, b1)
      case NoWill => None
      case Willed(will, b2) =>
        match TakeIf(HasBit(flags, 0x80), b2)
        case Missing => None
        case Taken(user, b3) =>
          match TakeIf(HasBit(flags, 0x40), b3)
          case Missing => None
          case Taken(password, b4) =>
            if b4 != [] then None
            else Some(Connect(level, HasBit(flags, 0x02), keepAlive, clientId, user, password, will))
  }

  /** The contents of a CONNECT packet. */
  function DecodeContents(b: seq<byte>): Option<Connect> {
    if |b| >= 10 && b[..6] == [0x00, 0x04, 0x4D, 0x51, 0x54, 0x54] && !HasBit(b[7], 0x01)
    then DecodePayload(b[6], b[7], Number(b[8], b[9]), b[10..])
    else None
  }

  function DecodeConnect(packet: seq<byte>): Option<Connect> {
    match ReadSpec(packet)
    case Ok(p) => if p.kind == 0x10 && p.flag == 0 && p.rest == [] then DecodeContents(p.contents) else None
    case Err(_) => None
    case Panic => None
  }

  /**
   What of the options a packet carries: a will has no identifier and no DUP flag, and an undefined
   QoS is sent as 0.
   */
  function Carried(c: Connect): Connect {
    if c.will.None? then c
    else c.(will := Some(c.will.value.(id := 0, dup := false, qos := WillQoS(c.will.value))))
  }

  /** The bits of a sum of bit weights. */
  lemma SumBits(c: nat, w: nat, q: nat, r: nat, p: nat, u: nat)
    requires c < 2 && w < 2 && q < 4 && r < 2 && p < 2 && u < 2
    ensures var f := 2 * c + 4 * w + 8 * q + 32 * r + 64 * p + 128 * u;
            f % 2 == 0 && f / 2 % 2 == c && f / 4 % 2 == w && f / 8 % 4 == q && f / 32 % 2 == r &&
            f / 64 % 2 == p && f / 128 % 2 == u
  {
    var f := 2 * c + 4 * w + 8 * q + 32 * r + 64 * p + 128 * u;
    assert f / 2 == c + 2 * (w + 2 * q + 8 * r + 16 * p + 32 * u);
    assert f / 4 == w + 2 * (q + 4 * r + 8 * p + 16 * u);
    assert f / 8 == q + 4 * (r + 2 * p + 4 * u);
    assert f / 32 == r + 2 * (p + 2 * u);
    assert f / 64 == p + 2 * u;
    assert f / 128 == u;
  }

  lemma BoolBits(f: byte, clean: bool, will: bool, q: nat, retain: bool, password: bool, user: bool)
    requires q < 4
    requires f == Bit(clean, 0x02) + Bit(will, 0x04) + 8 * q + Bit(retain, 0x20) + Bit(password, 0x40) + Bit(user, 0x80)
    ensures !HasBit(f, 0x01) && HasBit(f, 0x02) == clean && HasBit(f, 0x04) == will && f / 8 % 4 == q &&
            HasBit(f, 0x20) == retain && HasBit(f, 0x40) == password && HasBit(f, 0x80) == user
  {
    SumBits(Bit(clean, 1), Bit(will, 1), q, Bit(retain, 1), Bit(password, 1), Bit(user, 1));
  }

  lemma FlagBits(c: Connect)
    ensures var f := Flags(c);
            !HasBit(f, 0x01) && HasBit(f, 0x02) == c.clean && HasBit(f, 0x04) == c.will.Some? &&
            HasBit(f, 0x40) == (c.password != []) && HasBit(f, 0x80) == (c.userName != []) &&
            (c.will.Some? ==> HasBit(f, 0x20) == c.will.value.retain && f / 8 % 4 == WillQoS(c.will.value)) &&
            (c.will.None? ==> f / 8 % 4 == 0 && !HasBit(f, 0x20))
  {
    BoolBits(Flags(c), c.clean, c.will.Some?, if c.will.Some? then WillQoS(c.will.value) else 0,
             c.will.Some? && c.will.value.retain, c.password != [], c.userName != []);
  }

  lemma TakeWillBack(c: Connect, rest: seq<byte>)
    requires Packable(c)
    ensures TakeWill(Flags(c), WillPart(c.will) + rest) == Willed(Carried(c).will, rest)
  {
    FlagBits(c);
    if c.will.Some? {
      var w := c.will.value;
      TakeBack(w.topic, Field(w.payload) + rest);
      TakeBack(w.payload, rest);
      Associate(Field(w.topic), Field(w.payload), rest);
    } else {
      assert WillPart(c.will) + rest == rest;
    }
  }

  lemma TakeIfBack(s: seq<byte>, rest: seq<byte>)
    requires |s| <= 0xFFFF
    ensures TakeIf(s != [], Optional(s) + rest) == Taken(s, rest)
  {
    if s != [] {
      TakeBack(s, rest);
    } else {
      assert Optional(s) + rest == rest;
    }
  }

  lemma DecodePayloadBack(c: Connect)
    requires Packable(c)
    ensures DecodePayload(c.level, Flags(c), c.keepAlive, Payload(c)) == Some(Carried(c))
  {
    var b3 := Optional(c.password);
    var b2 := Optional(c.userName) + b3;
    FlagBits(c);
    TakeBack(c.clientId, WillPart(c.will) + b2);
    TakeWillBack(c, b2);
    TakeIfBack(c.userName, b3);
    TakeIfBack(c.password, []);
    assert b3 + [] == b3;
  }

  lemma HeaderBytes(c: Connect, payload: seq<byte>)
    ensures var b := VariableHeader(c) + payload;
            |b| >= 10 && b[..6] == [0x00, 0x04, 0x4D, 0x51, 0x54, 0x54] && b[6] == c.level && b[7] == Flags(c) &&
            Number(b[8], b[9]) == c.keepAlive && b[10..] == payload
  {
    var b, k := VariableHeader(c) + payload, PackUint16(c.keepAlive);
    assert b[8] == k[0] && b[9] == k[1];
  }

  lemma DecodeHeader(b: seq<byte>, level: byte, flags: byte, keepAlive: uint16, payload: seq<byte>)
    requires |b| >= 10 && b[..6] == [0x00, 0x04, 0x4D, 0x51, 0x54, 0x54] && b[6] == level && b[7] == flags
    requires Number(b[8], b[9]) == keepAlive && b[10..] == payload && !HasBit(flags, 0x01)
    ensures DecodeContents(b) == DecodePayload(level, flags, keepAlive, payload)
  {
  }

  lemma DecodeContentsBack(c: Connect)
    requires Packable(c)
    ensures DecodeContents(Body(c)) == Some(Carried(c))
  {
    HeaderBytes(c, Payload(c));
    FlagBits(c);
    DecodeHeader(Body(c), c.level, Flags(c), c.keepAlive, Payload(c));
    DecodePayloadBack(c);
  }

  lemma DecodeRead(packet: seq<byte>, body: seq<byte>)
    requires ReadSpec(packet) == Ok(Read(CONNECT, 0, body, []))
    ensures DecodeConnect(packet) == DecodeContents(body)
  {
  }

  lemma DecodeAlone(body: seq<byte>)
    requires |body| <= MAX_REMAINING
    ensures Packet(CONNECT, body).Ok?
    ensures DecodeConnect(Packet(CONNECT, body).value) == DecodeContents(body)
  {
    ReadAlone(CONNECT, 0, body);
    DecodeRead(Packet(CONNECT, body).value, body);
  }

  /** Every option set is recovered from its packet, in all that a packet carries. */
  lemma ConnectRoundTrip(c: Connect)
    requires Packable(c)
    ensures ConnectPacket(c).Ok?
    ensures DecodeConnect(ConnectPacket(c).value) == Some(Carried(c))
  {
    DecodeAlone(Body(c));
    DecodeContentsBack(c);
  }

  /** What is not carried is not packed. */
  lemma BodyCarried(c: Connect)
    requires Packable(c)
    ensures Packable(Carried(c)) && Body(Carried(c)) == Body(c)
  {
  }

  /** Two option sets share a packet if and only if they agree in all that a packet carries. */
  lemma ConnectInjective(c: Connect, d: Connect)
    requires Packable(c) && Packable(d)
    ensures ConnectPacket(c) == ConnectPacket(d) <==> Carried(c) == Carried(d)
  {
    if ConnectPacket(c) == ConnectPacket(d) {
      ConnectRoundTrip(c);
      ConnectRoundTrip(d);
    }
    BodyCarried(c);
    BodyCarried(d);
  }

  /** The rules of section 3.1 on flags, level and identifier (MQTT-3.1.2-2, 3.1.2-14, 3.1.2-22, 3.1.3-7). */
  predicate Conforms(level: byte, flags: byte, clientId: seq<byte>) {
    level == 4 && !HasBit(flags, 0x01) && flags / 8 % 4 != 3 &&
    (HasBit(flags, 0x40) ==> HasBit(flags, 0x80)) &&
    (clientId == [] ==> HasBit(flags, 0x02))
  }

  /** Not every option set makes a conforming packet: the code leaves three of the rules to the caller. */
  lemma ConnectConforms(c: Connect)
    ensures Conforms(c.level, Flags(c), c.clientId)
            <==> c.level == 4 && (c.userName == [] ==> c.password == []) && (c.clientId == [] ==> c.clean)
  {
    FlagBits(c);
    assert c.will.None? ==> Flags(c) / 8 % 4 == 0;
  }
}
