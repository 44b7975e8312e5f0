/**
 The reading loop of a connection (serve.go): what is delivered to the handler, what is
 written back and what is passed to the acknowledgement router.
 */
module Receiver {
  import opened Bytes
  import opened Messages
  import opened Framing
  import opened Utf8
  import opened PublishCodec
  import opened Matching
  import S = Signaller

  // ---- Incoming packets ----

  datatype Inbound =
    | ConnAck(sessionPresent: bool, code: byte)
    | Publish(msg: Message)
    | Acked(kind: S.Kind, ack: S.Ack)
    | PubRel(id: uint16)
    | PingResp

  /** The parsers of the two-byte acknowledgements. */
  function ParseId(flag: byte, want: byte, contents: seq<byte>): Outcome<uint16> {
    if flag != want then Err(InvalidPacket)
    else if |contents| < 2 then Err(InvalidPacketLength)
    else Ok(UnpackUint16(contents))
  }

  function ParseAck(kind: S.Kind, flag: byte, contents: seq<byte>): Outcome<Inbound> {
    match ParseId(flag, 0, contents)
    case Ok(id) => Ok(Acked(kind, S.Ack(id, [])))
    case Err(e) => Err(e)
    case Panic => Panic
  }

  /** The type switch of `serve` and the parsers it calls; a SUBACK without an identifier panics. */
  function ParseInbound(kind: byte, flag: byte, contents: seq<byte>): Outcome<Inbound> {
    match kind
    case 0x20 =>
      if flag != 0 then Err(InvalidPacket)
      else if |contents| != 2 then Err(InvalidPacketLength)
      else Ok(ConnAck(HasBit(contents[0], 0x01), contents[1]))
    case 0x30 => (match ParseSpec(flag, contents)
                  case Ok(m) => Ok(Publish(m))
                  case Err(e) => Err(e)
                  case Panic => Panic)
    case 0x40 => ParseAck(S.PubAck, flag, contents)
    case 0x50 => ParseAck(S.PubRec, flag, contents)
    case 0x60 => (match ParseId(flag, 0x02, contents)
                  case Ok(id) => Ok(PubRel(id))
                  case Err(e) => Err(e)
                  case Panic => Panic)
    case 0x70 => ParseAck(S.PubComp, flag, contents)
    case 0x90 =>
      if flag != 0 then Err(InvalidPacket)
      else if |contents| < 2 then Panic
      else Ok(Acked(S.SubAck, S.Ack(UnpackUint16(contents), contents[2..])))
    case 0xB0 => ParseAck(S.UnsubAck, flag, contents)
    case 0xD0 => if flag != 0 then Err(InvalidPacket) else Ok(PingResp)
    case _ => Err(InvalidPacket)
  }

  /** How a stream ends for the reader. */
  datatype End = Failed(error: Error) | Crashed

  function EndOf<T>(r: Outcome<T>): End
    requires !r.Ok?
  {
    if r.Panic? then Crashed else Failed(r.error)
  }

  datatype Parsed = Parsed(packets: seq<Inbound>, end: End)

  /** The packets of a stream, up to the first that cannot be read or parsed. */
  function ParseAll(s: seq<byte>): Parsed
    decreases |s|
  {
    ReadShrinks(s);
    match ReadSpec(s)
    case Ok(p) =>
      (match ParseInbound(p.kind, p.flag, p.contents)
       case Ok(packet) => var more := ParseAll(p.rest); Parsed([packet] + more.packets, more.end)
       case e => Parsed([], EndOf(e)))
    case e => Parsed([], EndOf(e))
  }

  // ---- Streams that make the loop panic ----

  /** What is left of a stream where parsing stops. */
  function Unparsed(s: seq<byte>): seq<byte>
    decreases |s|
  {
    ReadShrinks(s);
    match ReadSpec(s)
    case Ok(p) => if ParseInbound(p.kind, p.flag, p.contents).Ok? then Unparsed(p.rest) else s
    case _ => s
  }

  /** A length field of at least ten bytes, the tenth of them odd. */
  predicate NegativeLength(s: seq<byte>) {
    |s| >= 2 && FieldEnd(s[1..]) >= 10 && s[10] % 2 == 1
  }

  /** A SUBACK without room for an identifier. */
  predicate ShortSubAck(s: seq<byte>) {
    var p := ReadSpec(s);
    p.Ok? && p.value.kind == 0x90 && p.value.flag == 0 && |p.value.contents| < 2
  }

  lemma ReadPanics(s: seq<byte>)
    ensures ReadSpec(s).Panic? <==> NegativeLength(s)
  {
    if |s| >= 2 {
      var t := s[1..];
      var n := FieldEnd(t);
      NegativeExact(t[..n]);
    }
  }

  lemma ParsePanics(kind: byte, flag: byte, contents: seq<byte>)
    ensures ParseInbound(kind, flag, contents).Panic? <==> kind == 0x90 && flag == 0 && |contents| < 2
  {
  }

  /** A stream makes the loop panic if and only if what it cannot parse starts with one of the two. */
  lemma {:induction false} CrashExact(s: seq<byte>)
    ensures ParseAll(s).end == Crashed <==> NegativeLength(Unparsed(s)) || ShortSubAck(Unparsed(s))
    decreases |s|
  {
    ReadPanics(s);
    if ReadSpec(s).Ok? {
      var p := ReadSpec(s).value;
      ReadShrinks(s);
      ParsePanics(p.kind, p.flag, p.contents);
      if ParseInbound(p.kind, p.flag, p.contents).Ok? {
        CrashExact(p.rest);
      }
    }
  }

  // ---- What the loop does with them ----

  datatype Action =
    | Deliver(msg: Message)
    | WritePubAck(id: uint16)
    | WritePubRec(id: uint16)
    | WritePubComp(id: uint16)
    | Signal(kind: S.Kind, ack: S.Ack)
    | SignalConnAck(sessionPresent: bool, code: byte)
    | SignalPingResp

  /** While packet number n is handled: is a handler set, and does the write succeed? */
  datatype Env = Env(handler: bool, writes: bool)

  /** `buffer`: the QoS 2 messages not yet released; `ok`: no write has failed. */
  datatype Loop = Loop(buffer: map<uint16, Message>, actions: seq<Action>, ok: bool)

  function Delivery(m: Message, env: Env): seq<Action> {
    if env.handler then [Deliver(m)] else []
  }

  /** One turn of the loop. */
  function Turn(s: Loop, p: Inbound, env: Env): Loop
    requires s.ok
  {
    match p
    case ConnAck(present, code) => s.(actions := s.actions + [SignalConnAck(present, code)])
    case PingResp => s.(actions := s.actions + [SignalPingResp])
    case Acked(kind, ack) => s.(actions := s.actions + [Signal(kind, ack)])
    case Publish(m) =>
      if m.qos == 0 then s.(actions := s.actions + Delivery(m, env))
      else if m.qos == 1 then
        var delivered := s.actions + Delivery(m, env);
        if env.writes then s.(actions := delivered + [WritePubAck(m.id)]) else s.(actions := delivered, ok := false)
      else if m.qos == 2 then
        if env.writes then s.(actions := s.actions + [WritePubRec(m.id)], buffer := s.buffer[m.id := m])
        else s.(ok := false)
      else s
    case PubRel(id) =>
      if id !in s.buffer then s
      else
        var delivered := s.(actions := s.actions + Delivery(s.buffer[id], env), buffer := s.buffer - {id});
        if env.writes then delivered.(actions := delivered.actions + [WritePubComp(id)]) else delivered.(ok := false)
  }

  /** The loop over packets; a failed write ends it. */
  function Run(ps: seq<Inbound>, env: nat -> Env): Loop {
    if ps == [] then Loop(map[], [], true)
    else
      var n := |ps| - 1;
      var s := Run(ps[..n], env);
      if s.ok then Turn(s, ps[n], env(n)) else s
  }

  datatype Served = Served(actions: seq<Action>, end: Option<End>)

  /** The packets `done` were read from the stream, and `rest` is still to be read. */
  predicate ReadSoFar(stream: seq<byte>, done: seq<Inbound>, rest: seq<byte>) {
    ParseAll(stream) == Parsed(done + ParseAll(rest).packets, ParseAll(rest).end)
  }

  lemma ReadOn(stream: seq<byte>, done: seq<Inbound>, rest: seq<byte>, p: Inbound, rest': seq<byte>)
    requires ReadSoFar(stream, done, rest)
    requires ParseAll(rest) == Parsed([p] + ParseAll(rest').packets, ParseAll(rest').end)
    ensures ReadSoFar(stream, done + [p], rest')
  {
    Associate(done, [p], ParseAll(rest').packets);
  }

  lemma ReadEnd(stream: seq<byte>, done: seq<Inbound>, rest: seq<byte>, end: End)
    requires ReadSoFar(stream, done, rest) && ParseAll(rest) == Parsed([], end)
    ensures ParseAll(stream) == Parsed(done, end)
  {
    assert done + [] == done;
  }

  lemma ReadStopped(stream: seq<byte>, done: seq<Inbound>, rest: seq<byte>, env: nat -> Env)
    requires ReadSoFar(stream, done, rest) && !Run(done, env).ok
    ensures Run(ParseAll(stream).packets, env) == Run(done, env)
  {
    RunStops(done, ParseAll(rest).packets, env);
  }

  /** `serve` on a stream of bytes; no end stands for a write error. */
  method Serve(stream: seq<byte>, env: nat -> Env) returns (r: Served)
    ensures var parsed := ParseAll(stream);
            var run := Run(parsed.packets, env);
            r == Served(run.actions, if run.ok then Some(parsed.end) else None)
  {
    var buffer: map<uint16, Message> := map[];
    var actions: seq<Action> := [];
    var rest, n := stream, 0;
    ghost var done: seq<Inbound> := [];
    assert [] + ParseAll(stream).packets == ParseAll(stream).packets;
    while true
      invariant n == |done| && Run(done, env) == Loop(buffer, actions, true) && ReadSoFar(stream, done, rest)
      decreases |rest|
    {
      var next := NextPacket(rest);
      if next.Stop? {
        ReadEnd(stream, done, rest, next.end);
        return Served(actions, Some(next.end));
      }
      var p := next.packet;
      ReadOn(stream, done, rest, p, next.rest);
      RunAppend(done, p, env);
      var ok;
      buffer, actions, ok := Handle(p, env(n), buffer, actions);
      done, rest, n := done + [p], next.rest, n + 1;
      if !ok {
        ReadStopped(stream, done, rest, env);
        return Served(actions, None);
      }
    }
  }

  /** The body of the loop for a parsed packet; not ok stands for a write error. */
  method Handle(p: Inbound, e: Env, before: map<uint16, Message>, done: seq<Action>)
    returns (buffer: map<uint16, Message>, actions: seq<Action>, ok: bool)
    ensures Loop(buffer, actions, ok) == Turn(Loop(before, done, true), p, e)
  {
    buffer, actions, ok := before, done, true;
    match p {
      case ConnAck(present, code) =>
        actions := actions + [SignalConnAck(present, code)];
      case PingResp =>
        actions := actions + [SignalPingResp];
      case Acked(kind, ack) =>
        actions := actions + [Signal(kind, ack)];
      case Publish(m) =>
        match m.qos {
          case 0 =>
            actions := actions + Delivery(m, e);
          case 1 =>
            actions := actions + Delivery(m, e);
            if !e.writes {
              ok := false;
              return;
            }
            actions := actions + [WritePubAck(m.id)];
          case 2 =>
            if !e.writes {
              ok := false;
              return;
            }
            actions := actions + [WritePubRec(m.id)];
            buffer := buffer[m.id := m];
          case _ =>
        }
      case PubRel(id) =>
        if id in buffer {
          actions := actions + Delivery(buffer[id], e);
          buffer := buffer - {id};
          if !e.writes {
            ok := false;
            return;
          }
          actions := actions + [WritePubComp(id)];
        }
    }
  }

  datatype Next = Next(packet: Inbound, rest: seq<byte>) | Stop(end: End)

  /** Reading and parsing one packet. */
  method NextPacket(s: seq<byte>) returns (r: Next)
    ensures r.Next? ==> |r.rest| < |s|
    ensures r.Next? ==> var more := ParseAll(r.rest); ParseAll(s) == Parsed([r.packet] + more.packets, more.end)
    ensures r.Stop? ==> ParseAll(s) == Parsed([], r.end)
  {
    ReadShrinks(s);
    var read := ReadPacket(s);
    if !read.Ok? {
      return Stop(EndOf(read));
    }
    var p := ParseInbound(read.value.kind, read.value.flag, read.value.contents);
    return if p.Ok? then Next(p.value, read.value.rest) else Stop(EndOf(p));
  }

  lemma RunAppend(ps: seq<Inbound>, p: Inbound, env: nat -> Env)
    ensures Run(ps + [p], env) == var s := Run(ps, env); if s.ok then Turn(s, p, env(|ps|)) else s
  {
    assert (ps + [p])[..|ps|] == ps;
  }

  /** After a failed write nothing happens any more. */
  lemma {:induction false} RunStops(ps: seq<Inbound>, more: seq<Inbound>, env: nat -> Env)
    ensures !Run(ps, env).ok ==> Run(ps + more, env) == Run(ps, env)
  {
    if more == [] {
      assert ps + more == ps;
    } else {
      var n := |more| - 1;
      assert ps + more == (ps + more[..n]) + [more[n]];
      RunStops(ps, more[..n], env);
      RunAppend(ps + more[..n], more[n], env);
    }
  }

  // ---- What it amounts to over a whole connection ----

  /** A QoS 2 PUBLISH opens its identifier, a PUBREL closes it. */
  function MarkOf(p: Inbound): Mark<uint16> {
    match p
    case Publish(m) => if m.qos == 2 then Open(m.id) else Neither
    case PubRel(id) => Close(id)
    case _ => Neither
  }

  function Marks(ps: seq<Inbound>): seq<Mark<uint16>> {
    seq(|ps|, i requires 0 <= i < |ps| => MarkOf(ps[i]))
  }

  lemma MarksPrefix(ps: seq<Inbound>, n: nat)
    requires n <= |ps|
    ensures Marks(ps[..n]) == Marks(ps)[..n]
  {
  }

  /** Packet i is the PUBLISH of m at QoS 2 that the buffer remembers after ps. */
  predicate Pending(ps: seq<Inbound>, id: uint16, i: nat) {
    Latest(Marks(ps), id, i)
  }

  /** The buffer holds the messages of the packets that the table points to. */
  predicate Backed(buffer: map<uint16, Message>, table: map<uint16, nat>, ps: seq<Inbound>) {
    buffer.Keys == table.Keys && forall id :: id in buffer ==> table[id] < |ps| && ps[table[id]] == Publish(buffer[id])
  }

  lemma TurnBacked(s: Loop, table: map<uint16, nat>, ps: seq<Inbound>, p: Inbound, e: Env)
    requires s.ok && Backed(s.buffer, table, ps) && Turn(s, p, e).ok
    ensures Backed(Turn(s, p, e).buffer, Update(table, MarkOf(p), |ps|), ps + [p])
  {
  }

  lemma {:induction false} BufferTable(ps: seq<Inbound>, env: nat -> Env)
    requires Run(ps, env).ok
    ensures Backed(Run(ps, env).buffer, Table(Marks(ps)), ps)
  {
    if ps != [] {
      var n := |ps| - 1;
      MarksPrefix(ps, n);
      BufferTable(ps[..n], env);
      TurnBacked(Run(ps[..n], env), Table(Marks(ps[..n])), ps[..n], ps[n], env(n));
      assert ps == ps[..n] + [ps[n]];
    }
  }

  /**
   `subBuffer` holds message m for an identifier if and only if m is the latest QoS 2 PUBLISH
   with it and no PUBREL with it came since.
   */
  lemma BufferExact(ps: seq<Inbound>, env: nat -> Env, id: uint16, m: Message)
    requires Run(ps, env).ok
    ensures (id in Run(ps, env).buffer && Run(ps, env).buffer[id] == m)
            <==> exists i :: 0 <= i < |ps| && Pending(ps, id, i) && ps[i] == Publish(m)
  {
    var b, t := Run(ps, env).buffer, Table(Marks(ps));
    BufferTable(ps, env);
    if id in b {
      TableExact(Marks(ps), id, t[id]);
      assert Pending(ps, id, t[id]);
    }
    forall i | 0 <= i < |ps| && Pending(ps, id, i) ensures id in t && t[id] == i {
      TableExact(Marks(ps), id, i);
    }
  }

  /** The PUBLISH that packet j, if it is a PUBREL, releases. */
  function Released(ps: seq<Inbound>, j: nat): (r: Option<nat>)
    requires j < |ps|
    ensures r.Some? ==> r.value < j && ps[r.value].Publish? && ps[r.value].msg.qos == 2
    ensures r.Some? ==> ps[j] == PubRel(ps[r.value].msg.id)
  {
    var r := Mate(Marks(ps), j);
    assert r.Some? ==> Paired(Marks(ps), r.value, j) by {
      if r.Some? {
        MateExact(Marks(ps), r.value, j);
      }
    }
    r
  }

  /** Packet j releases PUBLISH i exactly when no QoS 2 PUBLISH and no PUBREL of that identifier lies between them. */
  lemma ReleasedExact(ps: seq<Inbound>, i: nat, j: nat)
    requires j < |ps|
    ensures Released(ps, j) == Some(i) <==> Paired(Marks(ps), i, j)
  {
    MateExact(Marks(ps), i, j);
  }

  function DuePublish(m: Message, e: Env): seq<Action> {
    if m.qos == 0 then Delivery(m, e)
    else if m.qos == 1 then Delivery(m, e) + [WritePubAck(m.id)]
    else if m.qos == 2 then [WritePubRec(m.id)]
    else []
  }

  function ReleasedMessage(ps: seq<Inbound>, j: nat): Option<Message>
    requires j < |ps|
  {
    match Released(ps, j)
    case Some(i) => Some(ps[i].msg)
    case None => None
  }

  function DueRelease(id: uint16, released: Option<Message>, e: Env): seq<Action> {
    match released
    case Some(m) => Delivery(m, e) + [WritePubComp(id)]
    case None => []
  }

  /** What a packet brings about, given the message that it releases. */
  function DueFor(p: Inbound, released: Option<Message>, e: Env): seq<Action> {
    match p
    case ConnAck(present, code) => [SignalConnAck(present, code)]
    case PingResp => [SignalPingResp]
    case Acked(kind, ack) => [Signal(kind, ack)]
    case Publish(m) => DuePublish(m, e)
    case PubRel(id) => DueRelease(id, released, e)
  }

  /** What packet j brings about, said without a buffer. */
  function Due(ps: seq<Inbound>, env: nat -> Env, j: nat): seq<Action>
    requires j < |ps|
  {
    DueFor(ps[j], ReleasedMessage(ps, j), env(j))
  }

  /** Packet j is answered by a write. */
  predicate Answered(ps: seq<Inbound>, j: nat)
    requires j < |ps|
  {
    (ps[j].Publish? && 1 <= ps[j].msg.qos <= 2) || Released(ps, j).Some?
  }

  function Script(ps: seq<Inbound>, env: nat -> Env): seq<Action> {
    if ps == [] then [] else Script(ps[..|ps| - 1], env) + Due(ps, env, |ps| - 1)
  }

  /** One turn does what is due, except that a failing write is missing at its end. */
  lemma TurnDue(ps: seq<Inbound>, env: nat -> Env)
    requires ps != [] && Run(ps[..|ps| - 1], env).ok
    ensures var n := |ps| - 1;
            var s, s' := Run(ps[..n], env), Run(ps, env);
            s'.ok == (Answered(ps, n) ==> env(n).writes) &&
            (s'.ok ==> s'.actions == s.actions + Due(ps, env, n)) &&
            (!s'.ok ==> Due(ps, env, n) != [] && s'.actions == s.actions + Due(ps, env, n)[..|Due(ps, env, n)| - 1])
  {
    var n := |ps| - 1;
    MarksPrefix(ps, n);
    BufferTable(ps[..n], env);
    var due := Due(ps, env, n);
    if ps[n].PubRel? && Released(ps, n).Some? {
      var d := Delivery(ps[Released(ps, n).value].msg, env(n));
      assert due[..|d|] == d;
      Associate(Run(ps[..n], env).actions, d, [WritePubComp(ps[n].id)]);
    } else if ps[n].Publish? && ps[n].msg.qos == 1 {
      var d := Delivery(ps[n].msg, env(n));
      assert due[..|d|] == d;
      Associate(Run(ps[..n], env).actions, d, [WritePubAck(ps[n].msg.id)]);
    }
  }

  /** No write fails that the first n packets ask for. */
  predicate Writable(ps: seq<Inbound>, env: nat -> Env) {
    forall j :: 0 <= j < |ps| && Answered(ps, j) ==> env(j).writes
  }

  lemma WritableStep(ps: seq<Inbound>, env: nat -> Env)
    requires ps != []
    ensures var n := |ps| - 1;
            Writable(ps, env) <==> Writable(ps[..n], env) && (Answered(ps, n) ==> env(n).writes)
  {
    var n := |ps| - 1;
    MarksPrefix(ps, n);
    forall j | 0 <= j < n ensures Answered(ps[..n], j) == Answered(ps, j) {
      assert Marks(ps)[..n][..j] == Marks(ps)[..j];
    }
  }

  /** The loop goes on exactly while its writes succeed, and then has done all that is due, in order. */
  lemma {:induction false} RunExact(ps: seq<Inbound>, env: nat -> Env)
    ensures Run(ps, env).ok <==> Writable(ps, env)
    ensures Run(ps, env).ok ==> Run(ps, env).actions == Script(ps, env)
  {
    if ps != [] {
      RunExact(ps[..|ps| - 1], env);
      WritableStep(ps, env);
      if Run(ps[..|ps| - 1], env).ok {
        TurnDue(ps, env);
      }
    }
  }

  lemma StoppedLast(ps: seq<Inbound>, env: nat -> Env)
    requires ps != [] && Writable(ps[..|ps| - 1], env) && Answered(ps, |ps| - 1) && !env(|ps| - 1).writes
    ensures var script := Script(ps, env);
            !Run(ps, env).ok && script != [] && Run(ps, env).actions == script[..|script| - 1]
  {
    var n := |ps| - 1;
    RunExact(ps[..n], env);
    TurnDue(ps, env);
    AllButLast(Script(ps[..n], env), Due(ps, env, n));
  }

  lemma AnsweredPrefix(ps: seq<Inbound>, f: nat)
    requires f < |ps|
    ensures Answered(ps[..f + 1], f) == Answered(ps, f)
  {
    MarksPrefix(ps, f + 1);
    assert Marks(ps)[..f + 1][..f] == Marks(ps)[..f];
  }

  /** When a write fails first at packet f, all was done that was due up to it, except that write. */
  lemma RunStopped(ps: seq<Inbound>, env: nat -> Env, f: nat)
    requires f < |ps| && Writable(ps[..f], env) && Answered(ps, f) && !env(f).writes
    ensures var script := Script(ps[..f + 1], env);
            script != [] && Run(ps, env).actions == script[..|script| - 1]
  {
    var p := ps[..f + 1];
    assert p[..f] == ps[..f] && p + ps[f + 1..] == ps;
    AnsweredPrefix(ps, f);
    StoppedLast(p, env);
    RunStops(p, ps[f + 1..], env);
  }

  lemma AllButLast<T>(a: seq<T>, b: seq<T>)
    requires b != []
    ensures (a + b)[..|a + b| - 1] == a + b[..|b| - 1]
  {
  }

  // ---- What can be picked out of the actions of a connection ----

  /** What f picks out of the actions, in order. */
  function Collect<T>(f: Action -> seq<T>, actions: seq<Action>): seq<T> {
    if actions == [] then [] else Collect(f, actions[..|actions| - 1]) + f(actions[|actions| - 1])
  }

  lemma {:induction false} CollectConcat<T>(f: Action -> seq<T>, a: seq<Action>, b: seq<Action>)
    ensures Collect(f, a + b) == Collect(f, a) + Collect(f, b)
  {
    if b == [] {
      assert a + b == a;
    } else {
      var n := |b| - 1;
      assert (a + b)[..|a| + n] == a + b[..n];
      CollectConcat(f, a, b[..n]);
      Associate(Collect(f, a), Collect(f, b[..n]), f(b[n]));
    }
  }

  lemma CollectOne<T>(f: Action -> seq<T>, a: Action)
    ensures Collect(f, [a]) == f(a)
  {
    assert [a][..0] == [];
  }

  /** What f picks out of a delivery and an answer after it. */
  lemma CollectDelivery<T>(f: Action -> seq<T>, m: Message, e: Env, answer: Action)
    ensures Collect(f, Delivery(m, e)) == if e.handler then f(Deliver(m)) else []
    ensures Collect(f, Delivery(m, e) + [answer]) == (if e.handler then f(Deliver(m)) else []) + f(answer)
  {
    if e.handler {
      CollectOne(f, Deliver(m));
    }
    CollectConcat(f, Delivery(m, e), [answer]);
    CollectOne(f, answer);
  }

  /** What each packet is to contribute, packet by packet. */
  function Gather<T>(g: (Inbound, Option<Message>, Env) -> seq<T>, ps: seq<Inbound>, env: nat -> Env): seq<T> {
    if ps == [] then []
    else
      var n := |ps| - 1;
      Gather(g, ps[..n], env) + g(ps[n], ReleasedMessage(ps, n), env(n))
  }

  ghost predicate Yields<T(!new)>(f: Action -> seq<T>, g: (Inbound, Option<Message>, Env) -> seq<T>) {
    forall p: Inbound, released: Option<Message>, e: Env ::
      Collect(f, DueFor(p, released, e)) == g(p, released, e)
  }

  lemma {:induction false} CollectScript<T(!new)>(f: Action -> seq<T>, g: (Inbound, Option<Message>, Env) -> seq<T>,
                                                  ps: seq<Inbound>, env: nat -> Env)
    requires Yields(f, g)
    ensures Collect(f, Script(ps, env)) == Gather(g, ps, env)
  {
    if ps != [] {
      var n := |ps| - 1;
      CollectScript(f, g, ps[..n], env);
      CollectConcat(f, Script(ps[..n], env), Due(ps, env, n));
    }
  }

  lemma CollectRun<T(!new)>(f: Action -> seq<T>, g: (Inbound, Option<Message>, Env) -> seq<T>,
                            ps: seq<Inbound>, env: nat -> Env)
    requires Yields(f, g) && Writable(ps, env)
    ensures Collect(f, Run(ps, env).actions) == Gather(g, ps, env)
  {
    RunExact(ps, env);
    CollectScript(f, g, ps, env);
  }

  // ---- Acknowledgement order (section 4.6 of MQTT 3.1.1) ----

  datatype Receipt = AckOf1 | RecOf2 | CompOf2

  /** The identifier written in a packet of one kind. */
  function IdOf(kind: Receipt): Action -> seq<uint16> {
    (a: Action) =>
      match a
      case WritePubAck(id) => if kind == AckOf1 then [id] else []
      case WritePubRec(id) => if kind == RecOf2 then [id] else []
      case WritePubComp(id) => if kind == CompOf2 then [id] else []
      case _ => []
  }

  /** The identifier that a packet is to be answered with. */
  function OwedBy(kind: Receipt): (Inbound, Option<Message>, Env) -> seq<uint16> {
    (p: Inbound, released: Option<Message>, e: Env) =>
      match p
      case Publish(m) =>
        if (m.qos == 1 && kind == AckOf1) || (m.qos == 2 && kind == RecOf2) then [m.id] else []
      case PubRel(id) => if kind == CompOf2 && released.Some? then [id] else []
      case _ => []
  }

  lemma OwedParts(kind: Receipt, p: Inbound, released: Option<Message>, e: Env)
    ensures Parts(IdOf(kind), p, released, e) == OwedBy(kind)(p, released, e)
  {
  }

  lemma OwedYields(kind: Receipt)
    ensures Yields(IdOf(kind), OwedBy(kind))
  {
    forall p: Inbound, released: Option<Message>, e: Env
      ensures Collect(IdOf(kind), DueFor(p, released, e)) == OwedBy(kind)(p, released, e)
    {
      DueParts(IdOf(kind), p, released, e);
      OwedParts(kind, p, released, e);
    }
  }

  /**
   Without write errors: PUBACK identifiers are those of the QoS 1 PUBLISH packets in order, PUBREC
   identifiers those of the QoS 2 PUBLISH packets, PUBCOMP identifiers those of the PUBREL packets that release one.
   */
  lemma AcknowledgementOrder(kind: Receipt, ps: seq<Inbound>, env: nat -> Env)
    requires Writable(ps, env)
    ensures Collect(IdOf(kind), Run(ps, env).actions) == Gather(OwedBy(kind), ps, env)
  {
    OwedYields(kind);
    CollectRun(IdOf(kind), OwedBy(kind), ps, env);
  }

  function PublishPart<T>(f: Action -> seq<T>, m: Message, e: Env): seq<T> {
    (if m.qos <= 1 && e.handler then f(Deliver(m)) else []) +
    (if m.qos == 1 then f(WritePubAck(m.id)) else if m.qos == 2 then f(WritePubRec(m.id)) else [])
  }

  function ReleasePart<T>(f: Action -> seq<T>, id: uint16, released: Option<Message>, e: Env): seq<T> {
    if released.None? then []
    else (if e.handler then f(Deliver(released.value)) else []) + f(WritePubComp(id))
  }

  lemma PublishParts<T>(f: Action -> seq<T>, m: Message, e: Env)
    ensures Collect(f, DuePublish(m, e)) == PublishPart(f, m, e)
  {
    CollectDelivery(f, m, e, WritePubAck(m.id));
    CollectOne(f, WritePubRec(m.id));
  }

  lemma ReleaseParts<T>(f: Action -> seq<T>, id: uint16, released: Option<Message>, e: Env)
    ensures Collect(f, DueRelease(id, released, e)) == ReleasePart(f, id, released, e)
  {
    if released.Some? {
      CollectDelivery(f, released.value, e, WritePubComp(id));
    }
  }

  function Parts<T>(f: Action -> seq<T>, p: Inbound, released: Option<Message>, e: Env): seq<T> {
    match p
    case ConnAck(present, code) => f(SignalConnAck(present, code))
    case PingResp => f(SignalPingResp)
    case Acked(kind, ack) => f(Signal(kind, ack))
    case Publish(m) => PublishPart(f, m, e)
    case PubRel(id) => ReleasePart(f, id, released, e)
  }

  /** What f picks out of what a packet brings about. */
  lemma DueParts<T>(f: Action -> seq<T>, p: Inbound, released: Option<Message>, e: Env)
    ensures Collect(f, DueFor(p, released, e)) == Parts(f, p, released, e)
  {
    match p {
      case ConnAck(present, code) => CollectOne(f, SignalConnAck(present, code));
      case PingResp => CollectOne(f, SignalPingResp);
      case Acked(kind, ack) => CollectOne(f, Signal(kind, ack));
      case Publish(m) => PublishParts(f, m, e);
      case PubRel(id) => ReleaseParts(f, id, released, e);
    }
  }

  // ---- Deliveries and signals ----

  function Delivered(): Action -> seq<Message> {
    (a: Action) => if a.Deliver? then [a.msg] else []
  }

  /** With a handler: a message at QoS 0 or 1 with its packet, one at QoS 2 with the PUBREL that releases it. */
  function DueMessage(): (Inbound, Option<Message>, Env) -> seq<Message> {
    (p: Inbound, released: Option<Message>, e: Env) =>
      if !e.handler then []
      else if p.Publish? && p.msg.qos <= 1 then [p.msg]
      else if p.PubRel? && released.Some? then [released.value]
      else []
  }

  lemma MessageParts(p: Inbound, released: Option<Message>, e: Env)
    ensures Parts(Delivered(), p, released, e) == DueMessage()(p, released, e)
  {
  }

  lemma MessageYields()
    ensures Yields(Delivered(), DueMessage())
  {
    forall p: Inbound, released: Option<Message>, e: Env
      ensures Collect(Delivered(), DueFor(p, released, e)) == DueMessage()(p, released, e)
    {
      DueParts(Delivered(), p, released, e);
      MessageParts(p, released, e);
    }
  }

  /** The handler gets exactly these messages, in this order. */
  lemma DeliveryOrder(ps: seq<Inbound>, env: nat -> Env)
    requires Writable(ps, env)
    ensures Collect(Delivered(), Run(ps, env).actions) == Gather(DueMessage(), ps, env)
  {
    MessageYields();
    CollectRun(Delivered(), DueMessage(), ps, env);
  }

  /** The key that an acknowledgement passed to the router closes. */
  function Arrival(): Action -> seq<Mark<S.Key>> {
    (a: Action) => if a.Signal? then [Close(S.Key(a.kind, a.ack.id))] else []
  }

  function DueArrival(): (Inbound, Option<Message>, Env) -> seq<Mark<S.Key>> {
    (p: Inbound, released: Option<Message>, e: Env) =>
      if p.Acked? then [Close(S.Key(p.kind, p.ack.id))] else []
  }

  lemma ArrivalParts(p: Inbound, released: Option<Message>, e: Env)
    ensures Parts(Arrival(), p, released, e) == DueArrival()(p, released, e)
  {
  }

  lemma ArrivalYields()
    ensures Yields(Arrival(), DueArrival())
  {
    forall p: Inbound, released: Option<Message>, e: Env
      ensures Collect(Arrival(), DueFor(p, released, e)) == DueArrival()(p, released, e)
    {
      DueParts(Arrival(), p, released, e);
      ArrivalParts(p, released, e);
    }
  }

  /** The router gets exactly the acknowledgement packets, in order, each under its kind and identifier. */
  lemma ArrivalOrder(ps: seq<Inbound>, env: nat -> Env)
    requires Writable(ps, env)
    ensures Collect(Arrival(), Run(ps, env).actions) == Gather(DueArrival(), ps, env)
  {
    ArrivalYields();
    CollectRun(Arrival(), DueArrival(), ps, env);
  }

  /** A message is handed over before its receipt is written. */
  lemma DeliveredFirst(m: Message, id: uint16)
    ensures var e := Env(true, true);
            (m.qos == 1 ==> DueFor(Publish(m), None, e) == [Deliver(m), WritePubAck(m.id)]) &&
            DueFor(PubRel(id), Some(m), e) == [Deliver(m), WritePubComp(id)]
  {
  }

  // ---- Deliveries at QoS 2 ----

  /** Between two releases of one identifier there is a new PUBLISH with it. */
  lemma PublishBetween(ps: seq<Inbound>, j: nat, j': nat)
    requires j < j' < |ps| && Released(ps, j).Some? && Released(ps, j').Some? && ps[j] == ps[j']
    ensures j < Released(ps, j').value < j'
  {
    var h := Marks(ps);
    MateExact(h, Released(ps, j).value, j);
    MateExact(h, Released(ps, j').value, j');
    OpenedBetween(h, Released(ps, j).value, j, Released(ps, j').value, j');
  }

  /** The traffic of one message: its PUBLISH packets before `cut`, its PUBREL packets from there on. */
  predicate InOrderChain(ps: seq<Inbound>, id: uint16, cut: nat) {
    cut <= |ps| &&
    (forall i :: 0 <= i < |ps| && MarkOf(ps[i]) == Open(id) ==> i < cut) &&
    (forall j :: 0 <= j < |ps| && MarkOf(ps[j]) == Close(id) ==> cut <= j)
  }

  /**
   A sender that sends PUBLISH any number of times, then PUBREL any number of times, causes one
   delivery: at its first PUBREL.
   */
  lemma ChainReleasesOnce(ps: seq<Inbound>, id: uint16, cut: nat, last: nat, first: nat, j: nat)
    requires InOrderChain(ps, id, cut)
    requires Latest(Marks(ps)[..cut], id, last)
    requires cut <= first <= j < |ps| && ps[first] == PubRel(id) && ps[j] == PubRel(id)
    requires forall m :: cut <= m < first ==> ps[m] != PubRel(id)
    ensures Released(ps, j) == if j == first then Some(last) else None
  {
    var h := Marks(ps);
    if j == first {
      assert h[last] == Open(id) by {
        assert h[..cut][last] == h[last];
      }
      forall m | last < m < first ensures !About(h[m], id) {
        if m < cut {
          assert h[..cut][m] == h[m];
        }
      }
      ReleasedExact(ps, last, first);
    } else if Released(ps, j).Some? {
      var i := Released(ps, j).value;
      ReleasedExact(ps, i, j);
      assert About(h[first], id);
    }
  }

  // ---- From the bytes of a sender ----

  lemma ParseOne(m: Message, rest: seq<byte>)
    requires Fits(m) && CleanText(m.topic)
    ensures PublishPacket(m).Ok?
    ensures ParseAll(PublishPacket(m).value + rest)
            == Parsed([Publish(Carried(m))] + ParseAll(rest).packets, ParseAll(rest).end)
  {
    PublishRoundTrip(m, rest);
  }

  /** Messages packed one after the other. */
  function PackedAll(ms: seq<Message>): seq<byte>
    requires forall i :: 0 <= i < |ms| ==> Fits(ms[i]) && CleanText(ms[i].topic)
  {
    if ms == [] then [] else PublishPacket(ms[0]).value + PackedAll(ms[1..])
  }

  function Published(ms: seq<Message>): seq<Inbound> {
    seq(|ms|, i requires 0 <= i < |ms| => Publish(Carried(ms[i])))
  }

  lemma PublishedCons(ms: seq<Message>)
    requires ms != []
    ensures Published(ms) == [Publish(Carried(ms[0]))] + Published(ms[1..])
  {
  }

  /** Any stream of packed messages is taken in as exactly these messages, and then ends. */
  lemma {:induction false} PublishStream(ms: seq<Message>)
    requires forall i :: 0 <= i < |ms| ==> Fits(ms[i]) && CleanText(ms[i].topic)
    ensures ParseAll(PackedAll(ms)) == Parsed(Published(ms), Failed(EOF))
  {
    if ms != [] {
      PublishStream(ms[1..]);
      ParseOne(ms[0], PackedAll(ms[1..]));
      PublishedCons(ms);
    }
  }
}
