/**
 Sending one message (publish.go): `publishImpl` and its two retry closures as
 a resumable state machine over any number of connections, composed with a
 broker that follows section 4.3.3 of MQTT 3.1.1.
 */
module Sender {
  import opened Bytes
  import opened Messages

  type PacketId = x: int | 1 <= x <= 0xFFFF witness 1

  /** How `write` ended, and whether the broker got the packet all the same. */
  datatype Write = Write(result: WriteResult, delivered: bool)
  datatype WriteResult = Written | Broken(eof: bool)

  /**
   What the environment decides during one attempt: the state of the client,
   the fate of each write, and whether each awaited acknowledgement arrived
   before the connection closed or the request timed out.
   */
  datatype Net = Net(connected: bool, maxPayload: nat, newId: PacketId,
                     write: Write, ack: bool, codes: seq<byte>,
                     release: Write, comp: bool)

  /** Where an attempt starts: `Publish`, `retryPublish`, or `retryPublish2`. */
  datatype Stage = First | Resend | Release

  /** How an attempt ends: nil, a retryable error, another error, or a panic. */
  datatype Result = Acked | Again(stage: Stage) | Ended | Crashed

  datatype Packet = PUBLISH(msg: Message) | PUBREL(id: uint16)
  datatype Sent = Sent(packet: Packet, write: Write)
  datatype Attempt = Attempt(msg: Message, sent: seq<Sent>, result: Result)

  /** The error of a failed write: `wrapErrorWithRetry` passes EOF through unwrapped. */
  function AfterBroken(w: WriteResult, retry: Stage): Result
    requires w.Broken?
  {
    if w.eof then Ended else Again(retry)
  }

  function SendRelease(m: Message, net: Net): Attempt {
    if !net.connected then Attempt(m, [], Ended)
    else
      Attempt(m, [Sent(PUBREL(m.id), net.release)],
              if net.release.result.Broken? then AfterBroken(net.release.result, Resend)
              else if net.comp then Acked
              else Again(Release))
  }

  function PublishImpl(m: Message, dup: bool, net: Net): Attempt {
    var m' := m.(id := if m.id == 0 then net.newId else m.id, dup := dup);
    if !net.connected then Attempt(m', [], Ended)
    else if !Fits(m') then Attempt(m', [], Crashed)
    else
      var sent := [Sent(PUBLISH(m'), net.write)];
      if net.write.result.Broken? then
        Attempt(m', sent, if m'.qos == 0 then Ended else AfterBroken(net.write.result, Resend))
      else if m'.qos == 0 then Attempt(m', sent, Acked)
      else if !net.ack then Attempt(m', sent, Again(Resend))
      else if m'.qos == 1 then Attempt(m', sent, Acked)
      else
        var rel := SendRelease(m', net);
        Attempt(m', sent + rel.sent, rel.result)
  }

  function Send(m: Message, stage: Stage, net: Net): Attempt {
    match stage
    case First => if Valid(m, net.maxPayload) then PublishImpl(m, false, net) else Attempt(m, [], Ended)
    case Resend => PublishImpl(m, true, net)
    case Release => SendRelease(m, net)
  }

  // ---- The broker of section 4.3.3, for one packet identifier ----

  /** Method A stores the message until PUBREL; method B stores only the identifier. */
  datatype Method = StoreMessage | StoreId

  /** `releases` counts onward deliveries; the rest is what the broker has received. */
  datatype Broker = Broker(held: bool, releases: nat, publishes: nat, pubrels: nat)

  function Receive(b: Broker, how: Method, p: Packet): Broker {
    match p
    case PUBLISH(m) =>
      var b := b.(publishes := b.publishes + 1);
      if m.qos < 2 then b.(releases := b.releases + 1)
      else if how == StoreId && !b.held then b.(held := true, releases := b.releases + 1)
      else b.(held := true)
    case PUBREL(_) =>
      var b := b.(pubrels := b.pubrels + 1);
      if how == StoreMessage && b.held then b.(held := false, releases := b.releases + 1)
      else b.(held := false)
  }

  function AtBroker(how: Method, log: seq<Sent>): Broker {
    if log == [] then Broker(false, 0, 0, 0)
    else
      var b := AtBroker(how, log[..|log| - 1]);
      var last := log[|log| - 1];
      if last.write.delivered then Receive(b, how, last.packet) else b
  }

  /** Received packets have the form PUBLISH* PUBREL*. */
  predicate InOrder(log: seq<Sent>) {
    log == [] ||
    (InOrder(log[..|log| - 1]) &&
     (log[|log| - 1].write.delivered && log[|log| - 1].packet.PUBLISH? ==>
        AtBroker(StoreMessage, log[..|log| - 1]).pubrels == 0))
  }

  /** A PUBREL write failed (other than by EOF) although the broker has had a PUBREL. */
  predicate Regressed(log: seq<Sent>) {
    log != [] &&
    (Regressed(log[..|log| - 1]) ||
     (var last := log[|log| - 1];
      last.packet.PUBREL? && last.write.result == Broken(false) &&
      AtBroker(StoreMessage, log).pubrels > 0))
  }

  // ---- The chain of one message over any number of attempts ----

  /** Before the first attempt, waiting with a continuation, or over. */
  datatype Status = Unsent | Waiting(stage: Stage) | Over(acked: bool)

  function StatusOf(r: Result): Status {
    match r
    case Acked => Over(true)
    case Again(stage) => Waiting(stage)
    case Ended => Over(false)
    case Crashed => Over(false)
  }

  function StageOf(s: Status): Stage
    requires !s.Over?
  {
    if s.Unsent? then First else s.stage
  }

  datatype Chain = Chain(msg: Message, log: seq<Sent>, status: Status)

  function Extend(c: Chain, net: Net): Chain {
    if c.status.Over? then c
    else
      var a := Send(c.msg, StageOf(c.status), net);
      Chain(a.msg, c.log + a.sent, StatusOf(a.result))
  }

  function RunChain(m: Message, nets: seq<Net>): Chain {
    if nets == [] then Chain(m, [], Unsent)
    else Extend(RunChain(m, nets[..|nets| - 1]), nets[|nets| - 1])
  }

  /** An attempt that has written its PUBLISH and waits for PUBACK or PUBREC. */
  predicate AwaitsAck(m: Message, stage: Stage, net: Net) {
    net.connected && stage != Release && (stage == First ==> Valid(m, net.maxPayload)) && Fits(m) &&
    net.write.result.Written? && m.qos > 0
  }

  /** An attempt that has written its PUBREL and waits for PUBCOMP. */
  predicate AwaitsComp(m: Message, stage: Stage, net: Net) {
    net.connected && net.release.result.Written? &&
    (stage == Release || (m.qos == 2 && AwaitsAck(m, stage, net) && net.ack))
  }

  function Stamp(c: Chain, net: Net): Message {
    c.msg.(id := if c.msg.id == 0 then net.newId else c.msg.id, dup := !c.status.Unsent?)
  }

  /** The log once this attempt's PUBLISH, if it starts with one, is written. */
  function LogAtAck(c: Chain, net: Net): seq<Sent> {
    if c.status == Waiting(Release) then c.log else c.log + [Sent(PUBLISH(Stamp(c, net)), net.write)]
  }

  /**
   The broker is honest: PUBACK and PUBREC come only if it has had a PUBLISH, PUBCOMP only if it
   has had a PUBREL. This speaks of the acknowledgements, not of what the sender makes of them.
   */
  predicate HonestAck(c: Chain, net: Net) {
    c.status.Over? ||
    (var stage := StageOf(c.status);
     (AwaitsAck(c.msg, stage, net) && net.ack ==> AtBroker(StoreMessage, LogAtAck(c, net)).publishes > 0) &&
     (AwaitsComp(c.msg, stage, net) && net.comp ==>
        AtBroker(StoreMessage, LogAtAck(c, net) + [Sent(PUBREL(Stamp(c, net).id), net.release)]).pubrels > 0))
  }

  predicate Honest(m: Message, nets: seq<Net>) {
    nets == [] ||
    (Honest(m, nets[..|nets| - 1]) &&
     HonestAck(RunChain(m, nets[..|nets| - 1]), nets[|nets| - 1]))
  }

  // ---- Facts about logs ----

  lemma LogSnoc(how: Method, log: seq<Sent>, x: Sent)
    ensures AtBroker(how, log + [x])
            == if x.write.delivered then Receive(AtBroker(how, log), how, x.packet) else AtBroker(how, log)
    ensures InOrder(log + [x]) <==>
            InOrder(log) && (x.write.delivered && x.packet.PUBLISH? ==> AtBroker(StoreMessage, log).pubrels == 0)
    ensures Regressed(log + [x]) <==>
            Regressed(log) || (x.packet.PUBREL? && x.write.result == Broken(false)
                               && AtBroker(StoreMessage, log + [x]).pubrels > 0)
  {
    assert (log + [x])[..|log|] == log;
  }

  /** Both methods receive the same packets. */
  lemma {:induction false} SameReceived(log: seq<Sent>)
    ensures AtBroker(StoreMessage, log).publishes == AtBroker(StoreId, log).publishes
    ensures AtBroker(StoreMessage, log).pubrels == AtBroker(StoreId, log).pubrels
  {
    if log != [] {
      SameReceived(log[..|log| - 1]);
    }
  }

  predicate AllQoS2(log: seq<Sent>) {
    forall i :: 0 <= i < |log| && log[i].packet.PUBLISH? ==> log[i].packet.msg.qos == 2
  }

  /** In PUBLISH* PUBREL* form the broker's state has a closed form: it cannot release twice. */
  lemma {:induction false} InOrderReleases(how: Method, log: seq<Sent>)
    requires InOrder(log) && AllQoS2(log)
    ensures var b := AtBroker(how, log);
            b.held == (b.publishes > 0 && b.pubrels == 0) &&
            b.releases == if b.publishes > 0 && (how == StoreId || b.pubrels > 0) then 1 else 0
  {
    if log != [] {
      var pre := log[..|log| - 1];
      InOrderReleases(how, pre);
      SameReceived(pre);
    }
  }

  // ---- Exactly once ----

  /** What holds of every chain of a QoS 2 message after any number of attempts. */
  predicate ChainOk(c: Chain) {
    c.msg.qos == 2 && AllQoS2(c.log) &&
    (c.status.Unsent? ==> c.log == []) &&
    (c.status.Waiting? ==> c.status.stage != First && Fits(c.msg) && c.msg.id != 0) &&
    (!Regressed(c.log) ==> InOrder(c.log)) &&
    (c.status == Waiting(Resend) ==> (Regressed(c.log) <==> AtBroker(StoreMessage, c.log).pubrels > 0)) &&
    (Regressed(c.log) ==> AtBroker(StoreMessage, c.log).pubrels > 0)
  }

  /** The chain once a PUBLISH has been written, with what follows it. */
  function Published(c: Chain, m: Message, w: Write, status: Status): Chain {
    Chain(m, c.log + [Sent(PUBLISH(m), w)], status)
  }

  /**
   How an attempt that starts with a PUBLISH can go: nothing is written, only the
   PUBLISH is, or PUBREC arrives and the attempt goes on as from `retryPublish2`.
   */
  predicate Splits(c: Chain, m: Message, net: Net, c': Chain)
    requires !c.status.Over?
  {
    || (c'.status == Over(false) && c'.log == c.log && (c'.msg == m || c'.msg == c.msg))
    || (Fits(m) && c' == Published(c, m, net.write, c'.status)
        && c'.status in {Waiting(Resend), Over(false), Over(true)}
        && (c'.status == Over(true) ==> m.qos == 0 || (m.qos == 1 && AwaitsAck(m, StageOf(c.status), net) && net.ack)))
    || (Fits(m) && m.qos == 2 && net.connected && AwaitsAck(m, StageOf(c.status), net) && net.ack
        && c' == Extend(Published(c, m, net.write, Waiting(Release)), net))
  }

  lemma SplitAttempt(c: Chain, net: Net)
    requires c.status.Unsent? || c.status == Waiting(Resend)
    ensures Splits(c, Stamp(c, net), net, Extend(c, net))
  {
    var m' := Stamp(c, net);
    var a := Send(c.msg, StageOf(c.status), net);
    if a.sent == [] {
      assert c.log + a.sent == c.log;
    } else if |a.sent| == 2 {
      var mid := Published(c, m', net.write, Waiting(Release));
      var rel := SendRelease(m', net);
      assert c.log + a.sent == mid.log + rel.sent;
    }
  }

  lemma PublishedOk(c: Chain, m: Message, w: Write, status: Status)
    requires ChainOk(c) && (c.status.Unsent? || c.status == Waiting(Resend))
    requires m.qos == 2 && Fits(m) && m.id != 0 && !status.Unsent? && status != Waiting(First)
    ensures ChainOk(Published(c, m, w, status))
  {
    LogSnoc(StoreMessage, c.log, Sent(PUBLISH(m), w));
  }

  lemma ReleasedOk(c: Chain, net: Net)
    requires ChainOk(c) && c.status == Waiting(Release)
    ensures ChainOk(Extend(c, net))
  {
    if net.connected {
      LogSnoc(StoreMessage, c.log, Sent(PUBREL(c.msg.id), net.release));
    } else {
      assert c.log + [] == c.log;
    }
  }

  lemma SplitOk(c: Chain, m: Message, net: Net, c': Chain)
    requires ChainOk(c) && (c.status.Unsent? || c.status == Waiting(Resend))
    requires m.qos == 2 && m.id != 0 && Splits(c, m, net, c')
    ensures ChainOk(c')
  {
    if c'.status != Over(false) || c'.log != c.log {
      var only := if c'.status in {Waiting(Resend), Over(false), Over(true)} then c'.status else Over(false);
      PublishedOk(c, m, net.write, only);
      PublishedOk(c, m, net.write, Waiting(Release));
      ReleasedOk(Published(c, m, net.write, Waiting(Release)), net);
    }
  }

  lemma ExtendOk(c: Chain, net: Net)
    requires ChainOk(c)
    ensures ChainOk(Extend(c, net))
  {
    if c.status == Waiting(Release) {
      ReleasedOk(c, net);
    } else if !c.status.Over? {
      SplitAttempt(c, net);
      SplitOk(c, Stamp(c, net), net, Extend(c, net));
    }
  }

  lemma {:induction false} RunChainOk(m: Message, nets: seq<Net>)
    requires m.qos == 2
    ensures ChainOk(RunChain(m, nets))
  {
    if nets != [] {
      RunChainOk(m, nets[..|nets| - 1]);
      ExtendOk(RunChain(m, nets[..|nets| - 1]), nets[|nets| - 1]);
    }
  }

  /**
   At most once: over any number of attempts and connections, unless a PUBREL
   write failed after the broker had a PUBREL, received packets have the form
   PUBLISH* PUBREL* and the broker releases the message at most once.
   */
  lemma AtMostOnce(how: Method, m: Message, nets: seq<Net>)
    requires m.qos == 2 && !Regressed(RunChain(m, nets).log)
    ensures InOrder(RunChain(m, nets).log)
    ensures AtBroker(how, RunChain(m, nets).log).releases <= 1
  {
    RunChainOk(m, nets);
    InOrderReleases(how, RunChain(m, nets).log);
  }

  /** What an honest broker adds: nothing is released before a PUBLISH, every PUBREL follows one. */
  predicate HonestOk(how: Method, c: Chain) {
    var b := AtBroker(how, c.log);
    (b.pubrels == 0 ==> b.held == (b.publishes > 0)
                        && b.releases == if how == StoreId && b.publishes > 0 then 1 else 0) &&
    (b.pubrels > 0 ==> b.publishes > 0 && b.releases >= 1 && (how == StoreId && b.held ==> b.releases >= 2)) &&
    (c.status == Waiting(Release) ==> b.publishes > 0) &&
    (c.status == Over(true) ==> b.publishes > 0 && b.pubrels > 0)
  }

  lemma PublishedHonest(how: Method, c: Chain, m: Message, w: Write, status: Status)
    requires HonestOk(how, c) && m.qos == 2 && status != Over(true)
    requires status == Waiting(Release) ==> AtBroker(how, c.log + [Sent(PUBLISH(m), w)]).publishes > 0
    ensures HonestOk(how, Published(c, m, w, status))
  {
    LogSnoc(how, c.log, Sent(PUBLISH(m), w));
  }

  lemma ReleasedHonest(how: Method, c: Chain, net: Net)
    requires HonestOk(how, c) && c.status == Waiting(Release)
    requires Extend(c, net).status == Over(true) ==> AtBroker(how, Extend(c, net).log).pubrels > 0
    ensures HonestOk(how, Extend(c, net))
  {
    if net.connected {
      LogSnoc(how, c.log, Sent(PUBREL(c.msg.id), net.release));
    } else {
      assert c.log + [] == c.log;
    }
  }

  lemma FullHonest(how: Method, c: Chain, m: Message, net: Net)
    requires HonestOk(how, c) && m.qos == 2
    requires net.connected
    requires var c' := Extend(Published(c, m, net.write, Waiting(Release)), net);
             AtBroker(how, c'.log).publishes > 0 &&
             (c'.status == Over(true) ==> AtBroker(how, c'.log).pubrels > 0)
    ensures HonestOk(how, Extend(Published(c, m, net.write, Waiting(Release)), net))
  {
    var mid := Published(c, m, net.write, Waiting(Release));
    LogSnoc(how, mid.log, Sent(PUBREL(m.id), net.release));
    assert AtBroker(how, mid.log).publishes > 0;
    PublishedHonest(how, c, m, net.write, Waiting(Release));
    ReleasedHonest(how, mid, net);
  }

  lemma SplitHonest(how: Method, c: Chain, m: Message, net: Net, c': Chain)
    requires HonestOk(how, c) && HonestAck(c, net) && (c.status.Unsent? || c.status == Waiting(Resend))
    requires m == Stamp(c, net) && m.qos == 2 && Splits(c, m, net, c')
    ensures HonestOk(how, c')
  {
    if c'.log == c.log {
    } else if |c'.log| == |c.log| + 1 {
      PublishedHonest(how, c, m, net.write, c'.status);
    } else {
      AcksAnswer(how, c, m, net, c');
      FullHonest(how, c, m, net);
    }
  }

  /** PUBCOMP answers a PUBREL that the broker has had: from `retryPublish2`. */
  lemma CompAnswers(how: Method, c: Chain, net: Net)
    requires ChainOk(c) && HonestAck(c, net) && c.status == Waiting(Release)
    requires Extend(c, net).status == Over(true)
    ensures AtBroker(how, Extend(c, net).log).pubrels > 0
  {
    assert AwaitsComp(c.msg, Release, net) && net.comp;
    assert Extend(c, net).log == c.log + [Sent(PUBREL(c.msg.id), net.release)];
    SameReceived(Extend(c, net).log);
  }

  /** What the two acknowledgements of a whole attempt at QoS 2 answer. */
  lemma AcksAnswer(how: Method, c: Chain, m: Message, net: Net, c': Chain)
    requires HonestAck(c, net) && (c.status.Unsent? || c.status == Waiting(Resend)) && m == Stamp(c, net)
    requires m.qos == 2 && AwaitsAck(m, StageOf(c.status), net) && net.ack
    requires c' == Extend(Published(c, m, net.write, Waiting(Release)), net)
    ensures AtBroker(how, c'.log).publishes > 0
    ensures c'.status == Over(true) ==> AtBroker(how, c'.log).pubrels > 0
  {
    var log, rel := LogAtAck(c, net), Sent(PUBREL(m.id), net.release);
    assert AwaitsAck(c.msg, StageOf(c.status), net);
    assert c'.log == log + [rel];
    SameReceived(c'.log);
    LogSnoc(StoreMessage, log, rel);
    if c'.status == Over(true) {
      assert AwaitsComp(c.msg, StageOf(c.status), net) && net.comp;
    }
  }

  lemma ExtendHonest(how: Method, c: Chain, net: Net)
    requires ChainOk(c) && HonestOk(how, c) && HonestAck(c, net)
    ensures HonestOk(how, Extend(c, net))
  {
    if c.status == Waiting(Release) {
      if Extend(c, net).status == Over(true) {
        CompAnswers(how, c, net);
      }
      ReleasedHonest(how, c, net);
    } else if !c.status.Over? {
      SplitAttempt(c, net);
      SplitHonest(how, c, Stamp(c, net), net, Extend(c, net));
    }
  }

  lemma {:induction false} RunChainHonest(how: Method, m: Message, nets: seq<Net>)
    requires m.qos == 2 && Honest(m, nets)
    ensures ChainOk(RunChain(m, nets)) && HonestOk(how, RunChain(m, nets))
  {
    RunChainOk(m, nets);
    if nets != [] {
      RunChainHonest(how, m, nets[..|nets| - 1]);
      ExtendHonest(how, RunChain(m, nets[..|nets| - 1]), nets[|nets| - 1]);
    }
  }

  /** Exactly once: when moreover the chain has returned nil, the message was released once. */
  lemma ExactlyOnce(how: Method, m: Message, nets: seq<Net>)
    requires m.qos == 2 && Honest(m, nets)
    requires RunChain(m, nets).status == Over(true)
    ensures AtBroker(how, RunChain(m, nets).log).releases >= 1
    ensures !Regressed(RunChain(m, nets).log) ==> AtBroker(how, RunChain(m, nets).log).releases == 1
  {
    RunChainHonest(how, m, nets);
    if !Regressed(RunChain(m, nets).log) {
      AtMostOnce(how, m, nets);
    }
  }

  predicate Perfect(net: Net) {
    net.connected && net.write == Write(Written, true) && net.ack &&
    net.release == Write(Written, true) && net.comp
  }

  /**
   The hypothesis is exact: a chain waiting to resend has regressed if and only
   if one trouble-free attempt now makes the broker release the message twice.
   */
  lemma RegressionReleasesTwice(how: Method, m: Message, nets: seq<Net>, net: Net)
    requires m.qos == 2 && Honest(m, nets) && Perfect(net)
    requires RunChain(m, nets).status == Waiting(Resend)
    ensures Extend(RunChain(m, nets), net).status == Over(true)
    ensures Regressed(RunChain(m, nets).log) <==>
            AtBroker(how, Extend(RunChain(m, nets), net).log).releases >= 2
  {
    RunChainHonest(how, m, nets);
    var c := RunChain(m, nets);
    SameReceived(c.log);
    PerfectRelease(how, c, net);
  }

  /** A trouble-free attempt: the broker gets one more PUBLISH, then one more PUBREL. */
  lemma PerfectRelease(how: Method, c: Chain, net: Net)
    requires c.status == Waiting(Resend) && c.msg.qos == 2 && Fits(c.msg) && Perfect(net)
    ensures var c' := Extend(c, net);
            c'.status == Over(true) &&
            AtBroker(how, c'.log).releases
            == AtBroker(how, c.log).releases + if how == StoreId && AtBroker(how, c.log).held then 0 else 1
  {
    var m := Stamp(c, net);
    var p, r := Sent(PUBLISH(m), net.write), Sent(PUBREL(m.id), net.release);
    assert Extend(c, net).log == (c.log + [p]) + [r];
    LogSnoc(how, c.log, p);
    LogSnoc(how, c.log + [p], r);
  }

  const LOST_COMP := Net(true, 0, 1, Write(Written, true), true, [], Write(Written, true), false)
  const LOST_RELEASE := LOST_COMP.(release := Write(Broken(false), false))

  lemma LostHonest(m: Message)
    ensures HonestAck(Chain(m, [], Unsent), LOST_COMP)
  {
    var c := Chain(m, [], Unsent);
    LogSnoc(StoreMessage, [], Sent(PUBLISH(Stamp(c, LOST_COMP)), LOST_COMP.write));
  }

  lemma TwoAttempts(m: Message, n0: Net, n1: Net)
    ensures var c0 := Chain(m, [], Unsent);
            RunChain(m, [n0, n1]) == Extend(Extend(c0, n0), n1) &&
            (Honest(m, [n0, n1]) <==> HonestAck(c0, n0) && HonestAck(Extend(c0, n0), n1))
  {
    assert [n0][..0] == [] && [n0, n1][..1] == [n0];
    assert RunChain(m, [n0]) == Extend(Chain(m, [], Unsent), n0);
    assert Honest(m, [n0]) <==> HonestAck(Chain(m, [], Unsent), n0);
  }

  /** Such a chain exists: PUBCOMP is lost, then the repeated PUBREL fails. */
  lemma RegressionHappens(m: Message)
    requires m.qos == 2 && Fits(m)
    ensures var nets := [LOST_COMP, LOST_RELEASE];
            Honest(m, nets) && RunChain(m, nets).status == Waiting(Resend) && Regressed(RunChain(m, nets).log)
  {
    var n0, n1 := LOST_COMP, LOST_RELEASE;
    var c0 := Chain(m, [], Unsent);
    var m' := Stamp(c0, n0);
    var p, r := Sent(PUBLISH(m'), n0.write), Sent(PUBREL(m'.id), n0.release);
    var r' := Sent(PUBREL(m'.id), n1.release);
    var c1 := Chain(m', [p, r], Waiting(Release));
    LostHonest(m);
    TwoAttempts(m, n0, n1);
    assert Extend(c0, n0) == c1;
    assert Extend(c1, n1) == Chain(m', [p, r, r'], Waiting(Resend));
    RegressedLog(p, r, r');
  }

  lemma RegressedLog(p: Sent, r: Sent, r': Sent)
    requires p.packet.PUBLISH? && p.write.delivered
    requires r.packet.PUBREL? && r.write.delivered
    requires r'.packet.PUBREL? && r'.write == Write(Broken(false), false)
    ensures AtBroker(StoreMessage, [p, r]).publishes == 1
    ensures AtBroker(StoreMessage, [p, r, r']).pubrels == 1
    ensures Regressed([p, r, r'])
  {
    assert [p, r] == ([] + [p]) + [r] && [p, r, r'] == [p, r] + [r'];
    LogSnoc(StoreMessage, [], p);
    LogSnoc(StoreMessage, [] + [p], r);
    LogSnoc(StoreMessage, [p, r], r');
  }

  /** A QoS 1 attempt that returns nil has had PUBACK, which answers a PUBLISH. */
  lemma PubAckAnswers(how: Method, c: Chain, net: Net)
    requires c.msg.qos == 1 && HonestAck(c, net) && (c.status.Unsent? || c.status == Waiting(Resend))
    requires Extend(c, net).status == Over(true)
    ensures AtBroker(how, Extend(c, net).log).publishes > 0
  {
    SplitAttempt(c, net);
    assert AwaitsAck(c.msg, StageOf(c.status), net) && net.ack;
    assert Extend(c, net).log == LogAtAck(c, net);
    SameReceived(Extend(c, net).log);
  }

  /** At least once at QoS 1: with an honest broker, an acknowledged message was released. */
  lemma {:induction false} AtLeastOnce(how: Method, m: Message, nets: seq<Net>)
    requires m.qos == 1 && Honest(m, nets)
    ensures RunChain(m, nets).msg.qos == 1
    ensures RunChain(m, nets).status == Over(true) ==> AtBroker(how, RunChain(m, nets).log).releases >= 1
  {
    QoS1Log(m, nets);
    if nets != [] {
      var before, net := nets[..|nets| - 1], nets[|nets| - 1];
      var c := RunChain(m, before);
      AtLeastOnce(how, m, before);
      QoS1Log(m, before);
      if !c.status.Over? && Extend(c, net).status == Over(true) {
        PubAckAnswers(how, c, net);
        QoS1Releases(how, RunChain(m, nets).log);
      }
    }
  }

  predicate AllQoS1Publish(log: seq<Sent>) {
    forall i :: 0 <= i < |log| ==> log[i].packet.PUBLISH? && log[i].packet.msg.qos == 1
  }

  lemma {:induction false} QoS1Log(m: Message, nets: seq<Net>)
    requires m.qos == 1
    ensures AllQoS1Publish(RunChain(m, nets).log) && RunChain(m, nets).msg.qos == 1
    ensures RunChain(m, nets).status.Waiting? ==> RunChain(m, nets).status.stage == Resend
  {
    if nets != [] {
      QoS1Log(m, nets[..|nets| - 1]);
    }
  }

  lemma {:induction false} QoS1Releases(how: Method, log: seq<Sent>)
    requires AllQoS1Publish(log)
    ensures AtBroker(how, log).releases == AtBroker(how, log).publishes
  {
    if log != [] {
      QoS1Releases(how, log[..|log| - 1]);
    }
  }

  // ---- Identity of retransmissions ----

  /**
   The packets of one message: they open with a PUBLISH with DUP 0, every later
   PUBLISH has DUP 1, all else in it is the message as given, and PUBLISH and
   PUBREL alike carry one non-zero packet identifier.
   */
  predicate SameMessage(m: Message, id: uint16, log: seq<Sent>) {
    (log != [] ==> id != 0 && log[0].packet.PUBLISH? && (m.id != 0 ==> id == m.id)) &&
    forall i :: 0 <= i < |log| ==>
      match log[i].packet
      case PUBLISH(p) => p == m.(id := id, dup := i > 0)
      case PUBREL(r) => r == id
  }

  predicate IdentityOk(m: Message, c: Chain) {
    SameMessage(m, c.msg.id, c.log) &&
    (c.status.Unsent? ==> c.log == [] && c.msg == m) &&
    (c.status.Waiting? ==> c.log != [] && c.status.stage != First) &&
    c.msg == m.(id := c.msg.id, dup := c.msg.dup)
  }

  lemma PublishedIdentity(m: Message, c: Chain, net: Net, status: Status)
    requires IdentityOk(m, c) && (c.status.Unsent? || c.status == Waiting(Resend))
    requires !status.Unsent? && status != Waiting(First)
    ensures IdentityOk(m, Published(c, Stamp(c, net), net.write, status))
  {
  }

  lemma ReleasedIdentity(m: Message, c: Chain, net: Net)
    requires IdentityOk(m, c) && c.status == Waiting(Release)
    ensures IdentityOk(m, Extend(c, net))
  {
    assert c.log + [] == c.log;
  }

  lemma ExtendIdentity(m: Message, c: Chain, net: Net)
    requires IdentityOk(m, c)
    ensures IdentityOk(m, Extend(c, net))
  {
    if c.status == Waiting(Release) {
      ReleasedIdentity(m, c, net);
    } else if !c.status.Over? {
      SplitAttempt(c, net);
      SplitIdentity(m, c, net, Extend(c, net));
    }
  }

  lemma SplitIdentity(m: Message, c: Chain, net: Net, c': Chain)
    requires IdentityOk(m, c) && (c.status.Unsent? || c.status == Waiting(Resend))
    requires Splits(c, Stamp(c, net), net, c')
    ensures IdentityOk(m, c')
  {
    PublishedIdentity(m, c, net, Waiting(Release));
    ReleasedIdentity(m, Published(c, Stamp(c, net), net.write, Waiting(Release)), net);
    if !c'.status.Unsent? && c'.status != Waiting(First) {
      PublishedIdentity(m, c, net, c'.status);
    }
  }

  lemma {:induction false} RetransmissionIdentity(m: Message, nets: seq<Net>)
    ensures IdentityOk(m, RunChain(m, nets))
  {
    if nets != [] {
      RetransmissionIdentity(m, nets[..|nets| - 1]);
      ExtendIdentity(m, RunChain(m, nets[..|nets| - 1]), nets[|nets| - 1]);
    }
  }
}
