/**
 Length-prefixed fields, and the requests whose payload is a list of them: SUBSCRIBE
 (subscribe.go) and UNSUBSCRIBE (unsubscribe.go), with decoders written from sections
 3.8 and 3.10 of MQTT 3.1.1.
 */
module Requests {
  import opened Bytes
  import opened Messages
  import opened Framing
  import opened Utf8
  import opened Subscriptions

  // ---- Length-prefixed fields ----

  function Field(s: seq<byte>): (r: seq<byte>)
    requires |s| <= 0xFFFF
    ensures |r| == |s| + 2
  {
    PackUint16(|s|) + s
  }

  /** `appendBytes` and `appendString`. */
  function AppendBytes(b: seq<byte>, s: seq<byte>): Outcome<seq<byte>> {
    if |s| > 0xFFFF then Panic else Ok(b + Field(s))
  }

  /** A field taken from the front of some bytes, and the bytes after it. */
  datatype Taken = Taken(text: seq<byte>, rest: seq<byte>) | Missing

  /** A 16-bit number as section 1.5.2 lays it out: the high byte first. */
  function Number(high: byte, low: byte): uint16 {
    256 * high as int + low as int
  }

  function TakeField(b: seq<byte>): (r: Taken)
    ensures r.Taken? ==> |r.rest| < |b|
  {
    if |b| < 2 || Number(b[0], b[1]) + 2 > |b| then Missing
    else Taken(b[2..Number(b[0], b[1]) + 2], b[Number(b[0], b[1]) + 2..])
  }

  lemma TakeBack(s: seq<byte>, rest: seq<byte>)
    requires |s| <= 0xFFFF
    ensures TakeField(Field(s) + rest) == Taken(s, rest)
  {
    var b := Field(s) + rest;
    assert b[2..|s| + 2] == s && b[|s| + 2..] == rest;
  }

  // ---- SUBSCRIBE ----

  const SUBSCRIBE: byte := 0x80
  const UNSUBSCRIBE: byte := 0xA0
  const FROM_CLIENT: byte := 0x02

  /** A filter followed by its QoS. */
  function Choice(sub: Subscription): (r: seq<byte>)
    requires |sub.topic| <= 0xFFFF
    ensures |r| == |sub.topic| + 3
  {
    Field(sub.topic) + [sub.qos]
  }

  /** The payload of section 3.8.3. */
  function SubscribePayload(subs: seq<Subscription>): (r: seq<byte>)
    requires Subscribable(subs)
    ensures |r| + 2 == SubscribeLength(subs)
  {
    if subs == [] then [] else Choice(subs[0]) + SubscribePayload(subs[1..])
  }

  function SubscribePacket(id: uint16, subs: seq<Subscription>): Outcome<seq<byte>> {
    if Subscribable(subs) then Packet(SUBSCRIBE + FROM_CLIENT, PackUint16(id) + SubscribePayload(subs)) else Panic
  }

  lemma {:induction false} SubscribePayloadAppend(subs: seq<Subscription>, last: Subscription)
    requires Subscribable(subs + [last])
    ensures Subscribable(subs) && last.qos <= 2 && |last.topic| <= 0xFFFF
    ensures SubscribePayload(subs + [last]) == SubscribePayload(subs) + Choice(last)
  {
    var all := subs + [last];
    assert all[|subs|] == last;
    assert forall i :: 0 <= i < |subs| ==> all[i] == subs[i];
    if subs == [] {
      assert all[1..] == [];
      assert SubscribePayload(all) == Choice(last) + [];
    } else {
      assert all[1..] == subs[1..] + [last];
      SubscribePayloadAppend(subs[1..], last);
      Associate(Choice(subs[0]), SubscribePayload(subs[1..]), Choice(last));
    }
  }

  lemma SubscribablePrefix(subs: seq<Subscription>, i: nat)
    requires i < |subs| && Subscribable(subs[..i])
    ensures Subscribable(subs[..i + 1]) <==> subs[i].qos <= 2 && |subs[i].topic| <= 0xFFFF
    ensures !Subscribable(subs[..i + 1]) ==> !Subscribable(subs)
  {
    assert subs[..i + 1] == subs[..i] + [subs[i]];
  }

  /** `pktSubscribe.Pack`: the payload grows by one filter and QoS at a time. */
  method PackSubscribe(id: uint16, subs: seq<Subscription>) returns (r: Outcome<seq<byte>>)
    ensures r == SubscribePacket(id, subs)
    ensures r.Ok? <==> SubscribeFits(subs)
  {
    var payload: seq<byte> := [];
    var i := 0;
    while i < |subs|
      invariant 0 <= i <= |subs| && Subscribable(subs[..i]) && payload == SubscribePayload(subs[..i])
    {
      var sub := subs[i];
      SubscribablePrefix(subs, i);
      payload :- AppendBytes(payload, sub.topic);
      var flag: byte := 0;
      match sub.qos {
        case 0 =>
        case 1 => flag := SetBit(flag, 0x01);
        case 2 => flag := SetBit(flag, 0x02);
        case _ => return Panic;
      }
      payload := payload + [flag];
      assert subs[..i + 1] == subs[..i] + [sub];
      SubscribePayloadAppend(subs[..i], sub);
      Associate(SubscribePayload(subs[..i]), Field(sub.topic), [sub.qos]);
      i := i + 1;
    }
    assert subs[..i] == subs;
    r := Pack(SUBSCRIBE + FROM_CLIENT, [PackUint16(id), payload]);
    FlattenTwo(PackUint16(id), payload);
  }

  lemma FlattenTwo(a: seq<byte>, b: seq<byte>)
    ensures Flatten([a, b]) == a + b
  {
    assert [a, b][1..] == [b] && [b][1..] == [];
    assert Flatten([b]) == b + [];
  }

  function DecodeSubscriptions(b: seq<byte>): Option<seq<Subscription>>
    decreases |b|
  {
    if b == [] then Some([])
    else
      match TakeField(b)
      case Missing => None
      case Taken(topic, rest) =>
        if rest == [] || rest[0] > 2 then None
        else
          match DecodeSubscriptions(rest[1..])
          case None => None
          case Some(more) => Some([Subscription(topic, rest[0])] + more)
  }

  lemma {:induction false} DecodeSubscriptionsBack(subs: seq<Subscription>)
    requires Subscribable(subs)
    ensures DecodeSubscriptions(SubscribePayload(subs)) == Some(subs)
  {
    if subs != [] {
      var more := SubscribePayload(subs[1..]);
      var rest := [subs[0].qos] + more;
      TakeBack(subs[0].topic, rest);
      Associate(Field(subs[0].topic), [subs[0].qos], more);
      assert rest[1..] == more;
      DecodeSubscriptionsBack(subs[1..]);
      assert subs == [subs[0]] + subs[1..];
    }
  }

  /** Contents of a packet that makes up all of the bytes and has this type, the flag 0010 and an identifier. */
  function Contents(kind: byte, packet: seq<byte>): Option<(uint16, seq<byte>)> {
    match ReadSpec(packet)
    case Ok(p) =>
      if p.kind == kind && p.flag == 0x02 && |p.contents| >= 2 && p.rest == []
      then Some((Number(p.contents[0], p.contents[1]), p.contents[2..])) else None
    case Err(_) => None
    case Panic => None
  }

  function DecodeSubscribe(packet: seq<byte>): Option<(uint16, seq<Subscription>)> {
    match Contents(0x80, packet)
    case None => None
    case Some((id, payload)) =>
      match DecodeSubscriptions(payload)
      case None => None
      case Some(subs) => Some((id, subs))
  }

  lemma ContentsBack(kind: byte, id: uint16, payload: seq<byte>)
    requires kind % 0x10 == 0 && |payload| + 2 <= MAX_REMAINING
    ensures Packet(kind + FROM_CLIENT, PackUint16(id) + payload).Ok?
    ensures Contents(kind, Packet(kind + FROM_CLIENT, PackUint16(id) + payload).value) == Some((id, payload))
  {
    var body := PackUint16(id) + payload;
    ReadAlone(kind, FROM_CLIENT, body);
    assert body[2..] == payload;
  }

  /** Every list of subscriptions, of any length, is recovered from its packet. */
  lemma SubscribeRoundTrip(id: uint16, subs: seq<Subscription>)
    requires SubscribeFits(subs)
    ensures SubscribePacket(id, subs).Ok?
    ensures DecodeSubscribe(SubscribePacket(id, subs).value) == Some((id, subs))
  {
    ContentsBack(SUBSCRIBE, id, SubscribePayload(subs));
    DecodeSubscriptionsBack(subs);
  }

  // ---- UNSUBSCRIBE ----

  /** The payload of section 3.10.3: the filters. */
  function UnsubscribePayload(topics: seq<Topic>): (r: seq<byte>)
    requires Packable(topics)
    ensures |r| + 2 == UnsubscribeLength(topics)
  {
    if topics == [] then [] else Field(topics[0]) + UnsubscribePayload(topics[1..])
  }

  function UnsubscribePacket(id: uint16, topics: seq<Topic>): Outcome<seq<byte>> {
    if Packable(topics) then Packet(UNSUBSCRIBE + FROM_CLIENT, PackUint16(id) + UnsubscribePayload(topics)) else Panic
  }

  lemma {:induction false} UnsubscribePayloadAppend(topics: seq<Topic>, last: Topic)
    requires Packable(topics + [last])
    ensures Packable(topics) && |last| <= 0xFFFF
    ensures UnsubscribePayload(topics + [last]) == UnsubscribePayload(topics) + Field(last)
  {
    var all := topics + [last];
    assert all[|topics|] == last;
    assert forall i :: 0 <= i < |topics| ==> all[i] == topics[i];
    if topics == [] {
      assert all[1..] == [];
      assert UnsubscribePayload(all) == Field(last) + [];
    } else {
      assert all[1..] == topics[1..] + [last];
      UnsubscribePayloadAppend(topics[1..], last);
      Associate(Field(topics[0]), UnsubscribePayload(topics[1..]), Field(last));
    }
  }

  lemma PackablePrefix(topics: seq<Topic>, i: nat)
    requires i < |topics| && Packable(topics[..i])
    ensures Packable(topics[..i + 1]) <==> |topics[i]| <= 0xFFFF
    ensures !Packable(topics[..i + 1]) ==> !Packable(topics)
  {
    assert topics[..i + 1] == topics[..i] + [topics[i]];
  }

  /** `pktUnsubscribe.Pack`. */
  method PackUnsubscribe(id: uint16, topics: seq<Topic>) returns (r: Outcome<seq<byte>>)
    ensures r == UnsubscribePacket(id, topics)
    ensures r.Ok? <==> UnsubscribeFits(topics)
  {
    var payload: seq<byte> := [];
    var i := 0;
    while i < |topics|
      invariant 0 <= i <= |topics| && Packable(topics[..i]) && payload == UnsubscribePayload(topics[..i])
    {
      PackablePrefix(topics, i);
      payload :- AppendBytes(payload, topics[i]);
      assert topics[..i + 1] == topics[..i] + [topics[i]];
      UnsubscribePayloadAppend(topics[..i], topics[i]);
      i := i + 1;
    }
    assert topics[..i] == topics;
    r := Pack(UNSUBSCRIBE + FROM_CLIENT, [PackUint16(id), payload]);
    FlattenTwo(PackUint16(id), payload);
  }

  function DecodeTopics(b: seq<byte>): Option<seq<Topic>>
    decreases |b|
  {
    if b == [] then Some([])
    else
      match TakeField(b)
      case Missing => None
      case Taken(topic, rest) =>
        match DecodeTopics(rest)
        case None => None
        case Some(more) => Some([topic] + more)
  }

  lemma {:induction false} DecodeTopicsBack(topics: seq<Topic>)
    requires Packable(topics)
    ensures DecodeTopics(UnsubscribePayload(topics)) == Some(topics)
  {
    if topics != [] {
      TakeBack(topics[0], UnsubscribePayload(topics[1..]));
      DecodeTopicsBack(topics[1..]);
      assert topics == [topics[0]] + topics[1..];
    }
  }

  function DecodeUnsubscribe(packet: seq<byte>): Option<(uint16, seq<Topic>)> {
    match Contents(0xA0, packet)
    case None => None
    case Some((id, payload)) =>
      match DecodeTopics(payload)
      case None => None
      case Some(topics) => Some((id, topics))
  }

  /** Every list of filters, of any length, is recovered from its packet. */
  lemma UnsubscribeRoundTrip(id: uint16, topics: seq<Topic>)
    requires UnsubscribeFits(topics)
    ensures UnsubscribePacket(id, topics).Ok?
    ensures DecodeUnsubscribe(UnsubscribePacket(id, topics).value) == Some((id, topics))
  {
    ContentsBack(UNSUBSCRIBE, id, UnsubscribePayload(topics));
    DecodeTopicsBack(topics);
  }

  /** The packets byte for byte: type and flags, remaining length, identifier, and then filter by filter. */
  lemma RequestLayout(id: uint16, subs: seq<Subscription>, topics: seq<Topic>)
    ensures SubscribeFits(subs) ==>
              SubscribePacket(id, subs)
              == Ok([0x82] + Digits(SubscribeLength(subs)) + ([id / 256, id % 256] + SubscribePayload(subs)))
    ensures UnsubscribeFits(topics) ==>
              UnsubscribePacket(id, topics)
              == Ok([0xA2] + Digits(UnsubscribeLength(topics)) + ([id / 256, id % 256] + UnsubscribePayload(topics)))
  {
  }

  lemma PayloadLayout(subs: seq<Subscription>, topics: seq<Topic>)
    ensures Subscribable(subs) && subs != [] ==>
              var t := subs[0].topic;
              SubscribePayload(subs)
              == [|t| / 256, |t| % 256] + t + [subs[0].qos] + SubscribePayload(subs[1..])
    ensures Packable(topics) && topics != [] ==>
              var t := topics[0];
              UnsubscribePayload(topics) == [|t| / 256, |t| % 256] + t + UnsubscribePayload(topics[1..])
    ensures SubscribePayload([]) == [] && UnsubscribePayload([]) == []
  {
  }

  /** No two requests share a packet. */
  lemma RequestsInjective(id: uint16, subs: seq<Subscription>, id': uint16, subs': seq<Subscription>,
                          topics: seq<Topic>, topics': seq<Topic>)
    ensures SubscribePacket(id, subs).Ok? && SubscribePacket(id, subs) == SubscribePacket(id', subs')
            ==> id == id' && subs == subs'
    ensures UnsubscribePacket(id, topics).Ok? && UnsubscribePacket(id, topics) == UnsubscribePacket(id', topics')
            ==> id == id' && topics == topics'
  {
    if SubscribePacket(id, subs).Ok? && SubscribePacket(id, subs) == SubscribePacket(id', subs') {
      SubscribeRoundTrip(id, subs);
      SubscribeRoundTrip(id', subs');
    }
    if UnsubscribePacket(id, topics).Ok? && UnsubscribePacket(id, topics) == UnsubscribePacket(id', topics') {
      UnsubscribeRoundTrip(id, topics);
      UnsubscribeRoundTrip(id', topics');
    }
  }
}
