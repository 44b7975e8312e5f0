/**
 Incoming packets byte for byte: what a broker writes, as sections 3.2 to 3.13 of MQTT 3.1.1 lay
 it out, is what the reading loop takes in and passes on.
 */
module ReceiverWire {
  import opened Bytes
  import opened Messages
  import opened Framing
  import opened Utf8
  import opened PublishCodec
  import opened Matching
  import opened Receiver
  import S = Signaller

  /** A packet that a broker can send: codes in a SUBACK only, and legal sizes and text. */
  predicate WellSent(p: Inbound) {
    match p
    case Publish(m) => Fits(m) && CleanText(m.topic) && (m.qos == 0 ==> m.id == 0)
    case Acked(kind, ack) => if kind == S.SubAck then |ack.codes| + 2 <= MAX_REMAINING else ack.codes == []
    case _ => true
  }

  function PublishWire(m: Message): seq<byte>
    requires Fits(m)
  {
    [0x30 + (if m.dup then 8 else 0) + 2 * m.qos + (if m.retain then 1 else 0)]
    + Digits(2 + |m.topic| + (if m.qos == 0 then 0 else 2) + |m.payload|)
    + ([|m.topic| / 256, |m.topic| % 256] + m.topic
       + (if m.qos == 0 then [] else [m.id / 256, m.id % 256]) + m.payload)
  }

  /** The bytes of the packet, written out. */
  function Wire(p: Inbound): seq<byte>
    requires WellSent(p)
  {
    match p
    case ConnAck(present, code) => [0x20, 0x02, if present then 1 else 0, code]
    case Publish(m) => PublishWire(m)
    case PubRel(id) => [0x62, 0x02, id / 256, id % 256]
    case PingResp => [0xD0, 0x00]
    case Acked(kind, ack) =>
      match kind
      case PubAck => [0x40, 0x02, ack.id / 256, ack.id % 256]
      case PubRec => [0x50, 0x02, ack.id / 256, ack.id % 256]
      case PubComp => [0x70, 0x02, ack.id / 256, ack.id % 256]
      case SubAck => [0x90] + Digits(2 + |ack.codes|) + ([ack.id / 256, ack.id % 256] + ack.codes)
      case UnsubAck => [0xB0, 0x02, ack.id / 256, ack.id % 256]
  }

  /** The bytes are taken in as the packet p, whatever follows. */
  ghost predicate Reads(bytes: seq<byte>, p: Inbound) {
    forall rest: seq<byte> ::
      ParseAll(bytes + rest) == Parsed([p] + ParseAll(rest).packets, ParseAll(rest).end)
  }

  lemma ParseNext(s: seq<byte>, r: Read, p: Inbound)
    requires ReadSpec(s) == Ok(r) && ParseInbound(r.kind, r.flag, r.contents) == Ok(p)
    ensures ParseAll(s) == Parsed([p] + ParseAll(r.rest).packets, ParseAll(r.rest).end)
  {
  }

  /** A packet of this type, flag and contents. */
  lemma FramedReads(bytes: seq<byte>, kind: byte, flag: byte, body: seq<byte>, p: Inbound)
    requires kind % 0x10 == 0 && flag < 0x10 && |body| <= MAX_REMAINING && ParseInbound(kind, flag, body) == Ok(p)
    requires bytes == [kind + flag] + Digits(|body|) + body
    ensures Reads(bytes, p)
  {
    forall rest: seq<byte>
      ensures ParseAll(bytes + rest) == Parsed([p] + ParseAll(rest).packets, ParseAll(rest).end)
    {
      ReadTyped(kind, flag, body, rest);
      ParseNext(bytes + rest, Read(kind, flag, body, rest), p);
    }
  }

  /** Two bytes of contents. */
  lemma ShortReads(header: byte, kind: byte, flag: byte, a: byte, b: byte, p: Inbound)
    requires kind % 0x10 == 0 && flag < 0x10 && header == kind + flag && ParseInbound(kind, flag, [a, b]) == Ok(p)
    ensures Reads([header, 0x02, a, b], p)
  {
    assert [header] + Digits(|[a, b]|) + [a, b] == [header, 0x02, a, b];
    FramedReads([header, 0x02, a, b], kind, flag, [a, b], p);
  }

  lemma SubAckReads(ack: S.Ack)
    requires WellSent(Acked(S.SubAck, ack))
    ensures Reads(Wire(Acked(S.SubAck, ack)), Acked(S.SubAck, ack))
  {
    var body := [ack.id / 256, ack.id % 256] + ack.codes;
    assert body[2..] == ack.codes;
    FramedReads(Wire(Acked(S.SubAck, ack)), 0x90, 0, body, Acked(S.SubAck, ack));
  }

  lemma AckReads(kind: S.Kind, ack: S.Ack)
    requires WellSent(Acked(kind, ack))
    ensures Reads(Wire(Acked(kind, ack)), Acked(kind, ack))
  {
    var high: byte, low: byte := ack.id / 256, ack.id % 256;
    match kind
    case PubAck => ShortReads(0x40, 0x40, 0, high, low, Acked(kind, ack));
    case PubRec => ShortReads(0x50, 0x50, 0, high, low, Acked(kind, ack));
    case PubComp => ShortReads(0x70, 0x70, 0, high, low, Acked(kind, ack));
    case UnsubAck => ShortReads(0xB0, 0xB0, 0, high, low, Acked(kind, ack));
    case SubAck => SubAckReads(ack);
  }

  lemma PublishReads(m: Message, bytes: seq<byte>)
    requires WellSent(Publish(m)) && PublishPacket(m) == Ok(bytes)
    ensures Reads(bytes, Publish(m))
  {
    forall rest: seq<byte>
      ensures ParseAll(bytes + rest) == Parsed([Publish(m)] + ParseAll(rest).packets, ParseAll(rest).end)
    {
      ParseOne(m, rest);
    }
  }

  lemma PublishWired(m: Message)
    requires Fits(m)
    ensures PublishPacket(m) == Ok(PublishWire(m))
  {
    PublishLayout(m);
  }

  /** Every packet a broker sends is taken in as what it is, whatever follows. */
  lemma PacketReads(p: Inbound)
    requires WellSent(p)
    ensures Reads(Wire(p), p)
  {
    match p
    case Publish(m) =>
      PublishWired(m);
      PublishReads(m, PublishWire(m));
    case Acked(kind, ack) => AckReads(kind, ack);
    case PubRel(id) => ShortReads(0x62, 0x60, 2, id / 256, id % 256, p);
    case ConnAck(present, code) => ShortReads(0x20, 0x20, 0, if present then 1 else 0, code, p);
    case PingResp =>
      assert [0xD0] + Digits(0) + [] == [0xD0, 0x00];
      FramedReads([0xD0, 0x00], 0xD0, 0, [], p);
  }

  /** What the parsers refuse, and how: wrong flags and unknown types, then wrong lengths. */
  lemma RefusedExactly(kind: byte, flag: byte, contents: seq<byte>)
    ensures var r := ParseInbound(kind, flag, contents);
            (kind in {0x40, 0x50, 0x70, 0xB0} ==>
               (r == Err(InvalidPacket) <==> flag != 0) &&
               (r == Err(InvalidPacketLength) <==> flag == 0 && |contents| < 2)) &&
            (kind == 0x60 ==>
               (r == Err(InvalidPacket) <==> flag != 2) &&
               (r == Err(InvalidPacketLength) <==> flag == 2 && |contents| < 2)) &&
            (kind == 0x20 ==>
               (r == Err(InvalidPacket) <==> flag != 0) &&
               (r == Err(InvalidPacketLength) <==> flag == 0 && |contents| != 2)) &&
            (kind in {0x90, 0xD0} ==> (r == Err(InvalidPacket) <==> flag != 0)) &&
            (kind !in {0x20, 0x30, 0x40, 0x50, 0x60, 0x70, 0x90, 0xB0, 0xD0} ==> r == Err(InvalidPacket))
  {
  }

  predicate AllWellSent(ps: seq<Inbound>) {
    forall i :: 0 <= i < |ps| ==> WellSent(ps[i])
  }

  function WireAll(ps: seq<Inbound>): seq<byte>
    requires AllWellSent(ps)
  {
    if ps == [] then [] else Wire(ps[0]) + WireAll(ps[1..])
  }

  /** Any mix of packets is taken in as exactly these packets, and then the stream ends. */
  lemma {:induction false} StreamParses(ps: seq<Inbound>)
    requires AllWellSent(ps)
    ensures ParseAll(WireAll(ps)) == Parsed(ps, Failed(EOF))
  {
    if ps != [] {
      StreamParses(ps[1..]);
      PacketReads(ps[0]);
      assert ParseAll(Wire(ps[0]) + WireAll(ps[1..])).packets == [ps[0]] + ps[1..];
    }
  }

  /** The keys that the acknowledgements among the packets are about, in order. */
  function Keys(ps: seq<Inbound>): seq<Mark<S.Key>> {
    if ps == [] then []
    else
      var last := ps[|ps| - 1];
      Keys(ps[..|ps| - 1]) + if last.Acked? then [Close(S.Key(last.kind, last.ack.id))] else []
  }

  lemma {:induction false} KeysGathered(ps: seq<Inbound>, env: nat -> Env)
    ensures Gather(DueArrival(), ps, env) == Keys(ps)
  {
    if ps != [] {
      KeysGathered(ps[..|ps| - 1], env);
    }
  }

  /**
   From bytes to the router: reading the packets of a broker closes, in order, exactly the kind and
   identifier of each acknowledgement among them.
   */
  lemma StreamRouted(ps: seq<Inbound>, env: nat -> Env)
    requires AllWellSent(ps) && Writable(ps, env)
    ensures Collect(Arrival(), Run(ParseAll(WireAll(ps)).packets, env).actions) == Keys(ps)
  {
    StreamParses(ps);
    ArrivalOrder(ps, env);
    KeysGathered(ps, env);
  }

  lemma OneArrival(p: Inbound, env: nat -> Env)
    requires p.Acked? && WellSent(p)
    ensures Collect(Arrival(), Run(ParseAll(Wire(p)).packets, env).actions) == [Close(S.Key(p.kind, p.ack.id))]
  {
    assert [p][1..] == [] && [p][..0] == [];
    assert WireAll([p]) == Wire(p) + [] == Wire(p);
    SignalWritable(p, env);
    StreamRouted([p], env);
  }

  /** And an acknowledgement packet wakes the waiter that registered last for its kind and identifier. */
  lemma PacketWakes(h: seq<Mark<S.Key>>, p: Inbound, env: nat -> Env)
    requires p.Acked? && WellSent(p) && S.Key(p.kind, p.ack.id) in S.Run(h).waiters
    ensures var arrivals := Collect(Arrival(), Run(ParseAll(Wire(p)).packets, env).actions);
            (S.Run(h).waiters[S.Key(p.kind, p.ack.id)], |h|) in S.Run(h + arrivals).sent
  {
    var k := S.Key(p.kind, p.ack.id);
    OneArrival(p, env);
    S.RegisteredEmpty(h, k);
    S.RunAppend(h, Close(k));
  }

  lemma SignalWritable(p: Inbound, env: nat -> Env)
    requires p.Acked?
    ensures Writable([p], env)
  {
    assert !Answered([p], 0);
  }
}
