/**
 Concrete runs that show the hypotheses of the whole-run theorems to be needed.
 */
module RetryExamples {
  import opened Bytes
  import opened Messages
  import opened Subscriptions
  import opened Sender
  import opened RetryModel
  import opened RetryOrder
  import opened RetryWire
  import opened RetryEffects
  import opened RetrySubscriptions
  import opened RetryPanics

  /** PUBLISH arrives and PUBREC does not. */
  const NO_ACK := Net(true, 0, 1, Write(Written, true), false, [], Write(Written, true), false)

  /** Nothing goes wrong. */
  const ALL_WELL := Net(true, 0, 1, Write(Written, true), true, [], Write(Written, true), true)

  /** A first attempt, a Retry pass that breaks, and one that does not. */
  function TwiceRun(m: Message): seq<Event> {
    [Call(Pub(m), None), LoopTurn([NO_ACK]), CallRetry, LoopTurn([NO_ACK]), CallRetry, LoopTurn([ALL_WELL, ALL_WELL])]
  }

  lemma Prefix(events: seq<Event>, e: Event)
    ensures After(events + [e]) == Step(After(events), e)
  {
    assert (events + [e])[..|events|] == events;
  }

  lemma FirstCall(r: Request)
    ensures var s := After([Call(r, None)]);
            !s.crashed && !s.stopped && s.tasks == [Do(0)] && s.cells == [r] && s.queue == [] && s.established == [] &&
            s.hist.requests == [r] && s.hist.wire == [] && s.hist.acks == [] && s.hist.doubled == []
  {
    Prefix([], Call(r, None));
    assert [] + [Call(r, None)] == [Call(r, None)];
  }

  function Sends(m: Message): Message {
    m.(id := if m.id == 0 then 1 else m.id)
  }

  /** The state after the first attempt. */
  lemma AfterFirst(m: Message)
    requires m.qos == 2 && Fits(m)
    ensures var s := After(TwiceRun(m)[..2]);
            var p := Sends(m).(dup := false);
            !s.crashed && !s.stopped && s.tasks == [] && s.queue == [Resume(0, Resend)] && s.cells == [Pub(p)] &&
            s.hist.acks == [] && s.hist.doubled == [] && s.hist.wire == [Wire(0, Sent(PUBLISH(p), NO_ACK.write))]
  {
    var e := TwiceRun(m);
    assert e[..1] == [e[0]] && e[..2] == e[..1] + [e[1]];
    FirstCall(Pub(m));
    Prefix(e[..1], e[1]);
    FirstTry(After(e[..1]), m);
  }

  /** The state before the second Retry task: the broken pass has queued the message twice. */
  lemma AfterBreak(m: Message)
    requires m.qos == 2 && Fits(m)
    ensures var s := After(TwiceRun(m)[..4]);
            var p := Sends(m);
            !s.crashed && !s.stopped && s.tasks == [] && s.hist.acks == [] &&
            s.queue == [Resume(0, Resend), Resume(0, Resend)] &&
            s.cells == [Pub(p.(dup := true))] && s.hist.doubled == [0] &&
            s.hist.wire == [Wire(0, Sent(PUBLISH(p.(dup := false)), NO_ACK.write)),
                            Wire(0, Sent(PUBLISH(p.(dup := true)), NO_ACK.write))]
  {
    var e := TwiceRun(m);
    assert e[..3] == e[..2] + [e[2]] && e[..4] == e[..3] + [e[3]];
    AfterFirst(m);
    Prefix(e[..2], e[2]);
    Prefix(e[..3], e[3]);
    SecondTry(After(e[..3]), Sends(m).(dup := false));
  }

  lemma FirstTry(s: State, m: Message)
    requires Linked(s) && !s.crashed && s.tasks == [Do(0)] && s.cells == [Pub(m)] && s.queue == []
    requires m.qos == 2 && Fits(m) && s.hist.wire == [] && s.hist.acks == []
    ensures var s' := Step(s, LoopTurn([NO_ACK]));
            var p := Sends(m).(dup := false);
            !s'.crashed && s'.tasks == [] && s'.queue == [Resume(0, Resend)] && s'.cells == [Pub(p)] &&
            s'.hist.acks == [] && s'.hist.wire == [Wire(0, Sent(PUBLISH(p), NO_ACK.write))] &&
            s'.stopped == s.stopped &&
            s'.hist.doubled == s.hist.doubled
  {
    var p := Sends(m).(dup := false);
    var t := TryRequest(Pub(m), First, NO_ACK);
    assert t == Try(Pub(p), First, [Sent(PUBLISH(p), NO_ACK.write)], Again(Resend));
    assert Stamped(0, t.sent) == [Wire(0, Sent(PUBLISH(p), NO_ACK.write))];
  }

  lemma SecondTry(s: State, p: Message)
    requires Linked(s) && !s.crashed && s.tasks == [Retry] && s.cells == [Pub(p)] && s.queue == [Resume(0, Resend)]
    requires p.qos == 2 && Fits(p) && p.id != 0
    ensures var s' := Step(s, LoopTurn([NO_ACK]));
            var d := p.(dup := true);
            !s'.crashed && s'.tasks == [] && s'.queue == [Resume(0, Resend), Resume(0, Resend)] &&
            s'.cells == [Pub(d)] && s'.hist.acks == s.hist.acks && s'.hist.doubled == s.hist.doubled + [0] &&
            s'.stopped == s.stopped &&
            s'.hist.wire == s.hist.wire + [Wire(0, Sent(PUBLISH(d), NO_ACK.write))]
  {
    var d := p.(dup := true);
    var t := TryRequest(Pub(p), Resend, NO_ACK);
    assert t == Try(Pub(d), Resend, [Sent(PUBLISH(d), NO_ACK.write)], Again(Resend));
    assert Stamped(0, t.sent) == [Wire(0, Sent(PUBLISH(d), NO_ACK.write))];
    assert s.hist.acks + [] == s.hist.acks;
  }

  /** One trouble-free Resume entry: PUBLISH, PUBREL, acknowledged. */
  lemma GoodResume(s: State, d: Message)
    requires !s.crashed && s.cells == [Pub(d)] && d.qos == 2 && Fits(d) && d.id != 0 && d.dup
    ensures var s' := RunEntry(s, Resume(0, Resend), ALL_WELL);
            !Breaks(s, Resume(0, Resend), ALL_WELL) && !s'.crashed && s'.cells == s.cells &&
            s'.hist.acks == s.hist.acks + [0] &&
            s'.hist.wire == s.hist.wire + [Wire(0, Sent(PUBLISH(d), ALL_WELL.write)),
                                           Wire(0, Sent(PUBREL(d.id), ALL_WELL.release))]
  {
    var t := TryRequest(Pub(d), Resend, ALL_WELL);
    var p, r := Sent(PUBLISH(d), ALL_WELL.write), Sent(PUBREL(d.id), ALL_WELL.release);
    assert t == Try(Pub(d), Resend, [p, r], Acked);
    assert Stamped(0, t.sent) == [Wire(0, p), Wire(0, r)];
  }

  lemma ThirdTry(s: State, d: Message)
    requires Linked(s) && !s.crashed && s.tasks == [Retry] && s.cells == [Pub(d)] && s.hist.acks == []
    requires s.queue == [Resume(0, Resend), Resume(0, Resend)]
    requires d.qos == 2 && Fits(d) && d.id != 0 && d.dup
    ensures var s' := Step(s, LoopTurn([ALL_WELL, ALL_WELL]));
            var p, r := Wire(0, Sent(PUBLISH(d), ALL_WELL.write)), Wire(0, Sent(PUBREL(d.id), ALL_WELL.release));
            !s'.crashed && s'.hist.acks == [0, 0] && s'.hist.wire == s.hist.wire + [p, r] + [p, r]
  {
    var nets, saved := [ALL_WELL, ALL_WELL], s.queue;
    var s0 := Popped(s).(queue := []);
    GoodResume(s0, d);
    var s1 := RunEntry(s0, saved[0], ALL_WELL);
    GoodResume(s1, d);
    var s2 := RunEntry(s1, saved[1], ALL_WELL);
    assert RetryFrom(s2, saved, nets, 2) == s2;
    assert RetryFrom(s1, saved, nets, 1) == s2;
    assert RetryFrom(s0, saved, nets, 0) == s2;
  }

  /**
   Exactly once fails across a broken Retry pass: the same QoS 2 message is acknowledged
   twice and a broker of either kind releases it twice.
   */
  lemma BrokenPassDeliversTwice(how: Method, m: Message)
    requires m.qos == 2 && Fits(m)
    ensures var s := After(TwiceRun(m));
            !s.crashed && s.hist.acks == [0, 0] && AtBroker(how, WireOf(s.hist.wire, 0)).releases == 2
  {
    var d := Sends(m).(dup := true);
    var w, p, r := NO_ACK.write, Sent(PUBLISH(d), ALL_WELL.write), Sent(PUBREL(d.id), ALL_WELL.release);
    var first := Sent(PUBLISH(d.(dup := false)), w);
    AfterTwice(m);
    WireOfStamped(0, [first, p, p, r, p, r], 0);
    TwiceLog(how, first, p, r);
  }

  /** The state after the second pass, and all that was sent. */
  lemma AfterTwice(m: Message)
    requires m.qos == 2 && Fits(m)
    ensures var s := After(TwiceRun(m));
            var d := Sends(m).(dup := true);
            var p, r := Sent(PUBLISH(d), ALL_WELL.write), Sent(PUBREL(d.id), ALL_WELL.release);
            !s.crashed && s.hist.acks == [0, 0] &&
            s.hist.wire == Stamped(0, [Sent(PUBLISH(d.(dup := false)), NO_ACK.write), p, p, r, p, r])
  {
    var e := TwiceRun(m);
    assert e == (e[..4] + [e[4]]) + [e[5]];
    AfterBreak(m);
    Prefix(e[..4], e[4]);
    Prefix(e[..4] + [e[4]], e[5]);
    ThirdTry(After(e[..4] + [e[4]]), Sends(m).(dup := true));
  }

  lemma TwiceLog(how: Method, first: Sent, p: Sent, r: Sent)
    requires first.packet.PUBLISH? && first.packet.msg.qos == 2 && first.write.delivered
    requires p.packet.PUBLISH? && p.packet.msg.qos == 2 && p.write.delivered
    requires r.packet.PUBREL? && r.write.delivered
    ensures AtBroker(how, [first, p, p, r, p, r]).releases == 2
  {
    assert [first] == [] + [first];
    LogSnoc(how, [], first);
    LogSnoc(how, [first], p);
    assert [first, p] == [first] + [p];
    LogSnoc(how, [first, p], p);
    assert [first, p, p] == [first, p] + [p];
    LogSnoc(how, [first, p, p], r);
    assert [first, p, p, r] == [first, p, p] + [r];
    LogSnoc(how, [first, p, p, r], p);
    assert [first, p, p, r, p] == [first, p, p, r] + [p];
    LogSnoc(how, [first, p, p, r, p], r);
    assert [first, p, p, r, p, r] == [first, p, p, r, p] + [r];
  }

  // ---- A rejected Subscribe ----

  const REJECTED := ALL_WELL.(codes := [0x80])

  /** A Subscribe that is not answered, a Retry pass that breaks, and one in which SUBACK rejects the topic. */
  function RejectRun(sub: Subscription): seq<Event> {
    [Call(Sub([sub]), None), LoopTurn([NO_ACK]), CallRetry, LoopTurn([NO_ACK]), CallRetry,
     LoopTurn([REJECTED, ALL_WELL])]
  }

  lemma OneFits(sub: Subscription)
    requires sub.qos <= 2 && |sub.topic| <= 0xFFFF
    ensures Encodable(Sub([sub]))
  {
    assert [sub][1..] == [];
    assert SubscribeLength([sub]) == 3 + |sub.topic| + 2;
  }

  /** A first attempt of a Subscribe that is not answered. */
  lemma UnansweredTurn(s: State, subs: seq<Subscription>)
    requires Linked(s) && !s.crashed && s.queue == [] && s.tasks != [] && s.tasks[0].Do? && s.tasks[0].op < |s.cells|
    requires s.cells[s.tasks[0].op] == Sub(subs) && Encodable(Sub(subs))
    ensures var s', op := Step(s, LoopTurn([NO_ACK])), s.tasks[0].op;
            !s'.crashed && s'.stopped == s.stopped && s'.tasks == s.tasks[1..] && s'.queue == [Resume(op, Resend)] &&
            s'.cells == s.cells && s'.established == s.established + subs && s'.hist.requests == s.hist.requests
  {
    assert TryRequest(Sub(subs), First, NO_ACK) == Try(Sub(subs), First, [], Again(Resend));
  }

  /** A pass over one continuation that is not answered. */
  lemma UnansweredPass(s: State, sub: Subscription)
    requires Linked(s) && !s.crashed && s.tasks == [Retry] && s.queue == [Resume(0, Resend)]
    requires s.cells == [Sub([sub])] && Encodable(Sub([sub]))
    ensures var s' := Step(s, LoopTurn([NO_ACK]));
            !s'.crashed && s'.stopped == s.stopped && s'.tasks == [] && s'.cells == s.cells &&
            s'.queue == [Resume(0, Resend), Resume(0, Resend)]
  {
    assert TryRequest(Sub([sub]), Resend, NO_ACK) == Try(Sub([sub]), Resend, [], Again(Resend));
  }

  /** The first entry is rejected, and the second then panics. */
  lemma RejectedPass(s: State, sub: Subscription)
    requires Linked(s) && !s.crashed && s.tasks == [Retry] && s.queue == [Resume(0, Resend), Resume(0, Resend)]
    requires s.cells == [Sub([sub])] && Encodable(Sub([sub]))
    ensures Step(s, LoopTurn([REJECTED, ALL_WELL])).crashed
  {
    var nets, q := [REJECTED, ALL_WELL], s.queue;
    var s0 := Popped(s).(queue := []);
    var t := TryRequest(Sub([sub]), Resend, REJECTED);
    var bad := Granted([sub], [0x80]);
    assert t == Try(Sub(bad), Resend, [], Acked);
    var s1 := RunEntry(s0, q[0], REJECTED);
    assert s1.cells == [Sub(bad)] && bad[0].qos == 0x80;
    assert RunEntry(s1, q[1], ALL_WELL).crashed;
    assert RetryFrom(s1, q, nets, 1).crashed;
    assert RetryFrom(s0, q, nets, 0).crashed;
  }

  lemma BeforeRejection(sub: Subscription)
    requires sub.qos <= 2 && |sub.topic| <= 0xFFFF
    ensures var s := After(RejectRun(sub)[..4]);
            !s.crashed && !s.stopped && s.tasks == [] && s.cells == [Sub([sub])] &&
            s.queue == [Resume(0, Resend), Resume(0, Resend)]
  {
    var e := RejectRun(sub);
    OneFits(sub);
    assert e[..1] == [e[0]] && e[..2] == e[..1] + [e[1]] && e[..3] == e[..2] + [e[2]] && e[..4] == e[..3] + [e[3]];
    FirstCall(Sub([sub]));
    Prefix(e[..1], e[1]);
    UnansweredTurn(After(e[..1]), [sub]);
    Prefix(e[..2], e[2]);
    Prefix(e[..3], e[3]);
    UnansweredPass(After(e[..3]), sub);
  }

  /**
   The granted codes are written into the slice that a queued continuation still holds: a run of
   one Subscribe with a broken pass ends in a panic once its topic is rejected.
   */
  lemma RejectedSubscribePanics(sub: Subscription)
    requires sub.qos <= 2 && |sub.topic| <= 0xFFFF
    ensures !After(RejectRun(sub)[..5]).crashed && After(RejectRun(sub)).crashed
  {
    var e := RejectRun(sub);
    OneFits(sub);
    BeforeRejection(sub);
    assert e[..5] == e[..4] + [e[4]] && e == e[..5] + [e[5]];
    Prefix(e[..4], e[4]);
    Prefix(e[..5], e[5]);
    RejectedPass(After(e[..5]), sub);
  }

  // ---- A pending Unsubscribe ----

  const GRANTED := ALL_WELL.(codes := [0])

  /** t is subscribed, u is not answered, so Unsubscribe of t waits behind it; then Resubscribe is called. */
  function UndoneRun(t: Topic, u: Topic): seq<Event> {
    [Call(Sub([Subscription(t, 0)]), None), LoopTurn([GRANTED]),
     Call(Sub([Subscription(u, 0)]), None), LoopTurn([NO_ACK]),
     Call(Unsub([t]), None), LoopTurn([]), CallResubscribe]
  }

  lemma GrantedTurn(s: State, sub: Subscription)
    requires Linked(s) && !s.crashed && s.queue == [] && s.tasks == [Do(0)] && s.cells == [Sub([sub])]
    requires Encodable(Sub([sub])) && s.established == []
    ensures var s' := Step(s, LoopTurn([GRANTED]));
            !s'.crashed && s'.stopped == s.stopped && s'.tasks == [] && s'.queue == [] && |s'.cells| == 1 &&
            s'.established == [sub] && s'.hist.requests == s.hist.requests
  {
    assert TryRequest(Sub([sub]), First, GRANTED) == Try(Sub(Granted([sub], [0])), First, [], Acked);
    assert [] + [sub] == [sub];
  }

  lemma Subscribed(t: Topic, u: Topic)
    requires |t| <= 0xFFFF && |u| <= 0xFFFF
    ensures var s := After(UndoneRun(t, u)[..4]);
            !s.crashed && !s.stopped && s.tasks == [] && s.queue == [Resume(1, Resend)] && |s.cells| == 2 &&
            s.established == [Subscription(t, 0), Subscription(u, 0)] &&
            s.hist.requests == [Sub([Subscription(t, 0)]), Sub([Subscription(u, 0)])]
  {
    var e := UndoneRun(t, u);
    OneFits(Subscription(t, 0));
    OneFits(Subscription(u, 0));
    assert e[..1] == [e[0]] && e[..2] == e[..1] + [e[1]] && e[..3] == e[..2] + [e[2]] && e[..4] == e[..3] + [e[3]];
    FirstCall(Sub([Subscription(t, 0)]));
    Prefix(e[..1], e[1]);
    GrantedTurn(After(e[..1]), Subscription(t, 0));
    Prefix(e[..2], e[2]);
    Prefix(e[..3], e[3]);
    UnansweredTurn(After(e[..3]), [Subscription(u, 0)]);
  }

  /** A call behind a waiting queue waits too. */
  lemma QueuedCell(s: State, r: Request)
    requires Linked(s) && !s.crashed && !s.stopped && s.queue != [] && s.tasks == []
    requires r.Pub? ==> 1 <= r.msg.qos <= 2
    ensures var s' := Step(Step(s, Call(r, None)), LoopTurn([]));
            !s'.crashed && !s'.stopped && s'.tasks == [] && s'.queue == s.queue + [Fresh(|s.cells|)] &&
            s'.cells == s.cells + [r] && s'.established == s.established && s'.hist.requests == s.hist.requests + [r]
  {
    var c := Step(s, Call(r, None));
    assert c.tasks == [Do(|s.cells|)] && c.cells[|s.cells|] == r;
  }

  lemma Awaiting(t: Topic, u: Topic)
    requires |t| <= 0xFFFF && |u| <= 0xFFFF
    ensures var s := After(UndoneRun(t, u));
            !s.crashed && NextIsResubscribe(s) && s.queue == [Resume(1, Resend)] + [Fresh(2)] &&
            s.established == [Subscription(t, 0), Subscription(u, 0)] && |s.hist.requests| == 3 &&
            s.hist.requests[2] == Unsub([t])
  {
    var e := UndoneRun(t, u);
    Subscribed(t, u);
    assert e[..5] == e[..4] + [e[4]] && e[..6] == e[..5] + [e[5]] && e == e[..6] + [e[6]];
    Prefix(e[..4], e[4]);
    Prefix(e[..5], e[5]);
    QueuedCell(After(e[..4]), Unsub([t]));
    Prefix(e[..6], e[6]);
  }

  lemma PendingIs(s: State, t: Topic, u: Topic)
    requires Linked(s) && s.queue == [Resume(1, Resend)] + [Fresh(2)] && |s.hist.requests| == 3 &&
             s.hist.requests[2] == Unsub([t])
    requires s.established == [Subscription(t, 0), Subscription(u, 0)] && t != u
    ensures Pending(s) == [Unsub([t])] && Count(s.established, t) == 1
  {
    FreshOpsAppend([Resume(1, Resend)], [Fresh(2)]);
    FreshOpsOne(Resume(1, Resend));
    FreshOpsOne(Fresh(2));
    assert FreshOps(s.queue) == [2];
    assert s.established[1..] == [Subscription(u, 0)];
    CountOne(Subscription(u, 0), t);
  }

  /** The run that undoes an Unsubscribe: t was to go and is back after the Resubscribe, whatever the network does. */
  lemma UnsubscribeUndone(t: Topic, u: Topic, nets: seq<Net>)
    requires |t| <= 0xFFFF && |u| <= 0xFFFF && t != u
    ensures var s, s' := After(UndoneRun(t, u)), Step(After(UndoneRun(t, u)), LoopTurn(nets));
            !s'.crashed && Prospect(s).Ok? && Count(Prospect(s).value, t) == 0 &&
            Prospect(s').Ok? && Count(Prospect(s').value, t) == 1
  {
    var e := UndoneRun(t, u);
    Awaiting(t, u);
    UndoneSound(t, u);
    AlwaysSound(e);
    AlwaysRecorded(e);
    AlwaysSettled(e);
    SoundStep(After(e), LoopTurn(nets));
    StepSafe(After(e), LoopTurn(nets));
    PendingIs(After(e), t, u);
    PendingUnsubscribeUndone(e, nets, t);
  }

  lemma UndoneSound(t: Topic, u: Topic)
    requires |t| <= 0xFFFF && |u| <= 0xFFFF
    ensures SoundCalls(UndoneRun(t, u))
  {
    OneFits(Subscription(t, 0));
    OneFits(Subscription(u, 0));
    assert [t][1..] == [];
    assert UnsubscribeLength([t]) == 2 + |t| + 2;
  }
}
