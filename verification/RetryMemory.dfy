/**
 What attempts make of a request: the memory that queued closures share is in every reachable
 state the request as given, under the identifier of a message and the codes of the last SUBACK;
 and when an attempt panics or ends for good.
 */
module RetryMemory {
  import opened Bytes
  import opened Messages
  import opened Subscriptions
  import opened Sender
  import opened RetryModel
  import opened RetryWire

  // ---- One request ----

  /** An attempt of a Subscribe with n topics that a SUBACK with n codes answers. */
  predicate Grants(n: nat, net: Net) {
    net.connected && net.write.result.Written? && net.ack && |net.codes| == n
  }

  /** The codes of the last SUBACK among the attempts. */
  function LastCodes(n: nat, nets: seq<Net>): (r: Option<seq<byte>>)
    ensures r.Some? ==> |r.value| == n
  {
    if nets == [] then None
    else if Grants(n, nets[|nets| - 1]) then Some(nets[|nets| - 1].codes)
    else LastCodes(n, nets[..|nets| - 1])
  }

  /** The request c that attempts under the given environments have made of r. */
  predicate Kept(r: Request, c: Request, nets: seq<Net>) {
    match r
    case Pub(m) => c.Pub? && c.msg == m.(id := c.msg.id, dup := c.msg.dup)
    case Unsub(_) => c == r
    case Sub(subs) =>
      match LastCodes(|subs|, nets)
      case None => c == r
      case Some(codes) => c.Sub? && Coded(subs, codes, c.subs)
  }

  /** Topic i as requested, with code i for its QoS. */
  predicate Coded(subs: seq<Subscription>, codes: seq<byte>, c: seq<Subscription>)
    requires |codes| == |subs|
  {
    |c| == |subs| && forall i :: 0 <= i < |subs| ==> c[i].topic == subs[i].topic && c[i].qos == codes[i]
  }

  lemma SubKept(subs: seq<Subscription>, c: Request, nets: seq<Net>, stage: Stage, net: Net)
    requires Kept(Sub(subs), c, nets) && Ask(c, stage, net).result != Crashed
    ensures Kept(Sub(subs), Ask(c, stage, net).request, nets + [net])
  {
    assert (nets + [net])[..|nets|] == nets;
    if Grants(|subs|, net) {
      assert c.Sub? && |c.subs| == |subs|;
      assert forall i :: 0 <= i < |subs| ==> c.subs[i].topic == subs[i].topic;
      assert Coded(subs, net.codes, Ask(c, stage, net).request.subs);
    }
  }

  lemma TryKept(r: Request, c: Request, nets: seq<Net>, stage: Stage, net: Net)
    requires Kept(r, c, nets) && TryRequest(c, stage, net).result != Crashed
    ensures Kept(r, TryRequest(c, stage, net).request, nets + [net])
  {
    if r.Sub? {
      SubKept(r.subs, c, nets, stage, net);
    }
  }

  // ---- When an attempt ends for good ----

  /** The attempt gets as far as writing PUBREL. */
  predicate Releases(m: Message, stage: Stage, net: Net) {
    stage == Release || (m.qos == 2 && net.write.result.Written? && net.ack)
  }

  /**
   The client is not connected or refuses the message, a write fails with EOF (or in any way at
   QoS 0), or a SUBACK has the wrong number of codes.
   */
  predicate Fatal(r: Request, stage: Stage, net: Net) {
    || !net.connected
    || (r.Pub? && stage == First && !Valid(r.msg, net.maxPayload))
    || ((r.Pub? ==> stage != Release) && net.write.result == Broken(true))
    || (r.Pub? && stage != Release && r.msg.qos == 0 && net.write.result.Broken?)
    || (r.Pub? && Releases(r.msg, stage, net) && net.release.result == Broken(true))
    || (r.Sub? && net.write.result.Written? && net.ack && |net.codes| != |r.subs|)
  }

  /** An attempt that does not panic ends with a non-retryable error exactly then. */
  lemma EndsExactly(r: Request, c: Request, nets: seq<Net>, stage: Stage, net: Net)
    requires Kept(r, c, nets) && TryRequest(c, stage, net).result != Crashed
    ensures TryRequest(c, stage, net).result == Ended <==> Fatal(r, stage, net)
  {
    match r
    case Pub(m) =>
      assert Valid(c.msg, net.maxPayload) == Valid(m, net.maxPayload);
    case Sub(subs) =>
      assert |c.subs| == |subs|;
    case Unsub(_) =>
  }

  /** The client is connected, takes the message, its writes succeed, and every acknowledgement it needs arrives. */
  predicate Succeeds(r: Request, stage: Stage, net: Net) {
    net.connected &&
    match r
    case Pub(m) =>
      if stage == Release then net.release.result.Written? && net.comp
      else
        (stage == First ==> Valid(m, net.maxPayload)) && net.write.result.Written? &&
        (m.qos >= 1 ==> net.ack) && (m.qos == 2 ==> net.release.result.Written? && net.comp)
    case Sub(subs) => net.write.result.Written? && net.ack && |net.codes| == |subs|
    case Unsub(_) => net.write.result.Written? && net.ack
  }

  /** An attempt that does not panic returns nil exactly then. */
  lemma AcksExactly(r: Request, c: Request, nets: seq<Net>, stage: Stage, net: Net)
    requires Kept(r, c, nets) && TryRequest(c, stage, net).result != Crashed
    ensures TryRequest(c, stage, net).result == Acked <==> Succeeds(r, stage, net)
  {
    match r
    case Pub(m) =>
      assert Valid(c.msg, net.maxPayload) == Valid(m, net.maxPayload);
    case Sub(subs) =>
      assert |c.subs| == |subs|;
    case Unsub(_) =>
  }

  // ---- When an attempt panics ----

  /** A first attempt panics exactly when the client is connected and takes a request that cannot be packed. */
  lemma FirstCrash(r: Request, net: Net)
    ensures TryRequest(r, First, net).result == Crashed
            <==> net.connected && !Encodable(r) && (r.Pub? ==> Valid(r.msg, net.maxPayload))
    ensures TryRequest(r, First, net).result.Again? ==> Encodable(r)
  {
  }

  predicate Rejecting(codes: seq<byte>) {
    exists j :: 0 <= j < |codes| && codes[j] > 2
  }

  /** The last SUBACK for the request, if any, rejected a topic. */
  predicate WasRejected(r: Request, nets: seq<Net>) {
    r.Sub? && LastCodes(|r.subs|, nets).Some? && Rejecting(LastCodes(|r.subs|, nets).value)
  }

  lemma {:induction false} SameLength(a: seq<Subscription>, b: seq<Subscription>)
    requires |a| == |b| && forall i :: 0 <= i < |a| ==> a[i].topic == b[i].topic
    ensures SubscribeLength(a) == SubscribeLength(b)
  {
    if a != [] {
      SameLength(a[1..], b[1..]);
    }
  }

  lemma CodedFits(subs: seq<Subscription>, codes: seq<byte>, c: seq<Subscription>)
    requires SubscribeFits(subs) && |codes| == |subs| && Coded(subs, codes, c)
    ensures SubscribeFits(c) <==> !Rejecting(codes)
  {
    SameLength(subs, c);
    if Rejecting(codes) {
      var j :| 0 <= j < |codes| && codes[j] > 2;
      assert c[j].qos > 2;
    } else {
      assert Subscribable(c);
    }
  }

  /** A request that could be packed can be packed again exactly as long as its last SUBACK rejected nothing. */
  lemma KeptEncodable(r: Request, c: Request, nets: seq<Net>)
    requires Encodable(r) && Kept(r, c, nets)
    ensures Encodable(c) <==> !WasRejected(r, nets)
  {
    if r.Sub? && LastCodes(|r.subs|, nets).Some? {
      CodedFits(r.subs, LastCodes(|r.subs|, nets).value, c.subs);
    }
  }

  lemma PubResumes(c: Message, stage: Stage, net: Net)
    requires Fits(c) && stage != First
    ensures TryRequest(Pub(c), stage, net).result != Crashed
  {
  }

  /** A continuation panics exactly when the client is connected and the last SUBACK rejected a topic. */
  lemma ResumeCrash(r: Request, c: Request, nets: seq<Net>, stage: Stage, net: Net)
    requires Encodable(r) && Kept(r, c, nets) && stage != First
    ensures TryRequest(c, stage, net).result == Crashed <==> net.connected && WasRejected(r, nets)
  {
    KeptEncodable(r, c, nets);
    if r.Pub? {
      PubResumes(c.msg, stage, net);
    }
  }

  // ---- The invariant ----

  /** Some attempt of the operation has met a fatal environment. */
  predicate MetEnd(s: State, x: nat)
    requires x < |s.hist.requests|
  {
    exists i :: 0 <= i < |s.hist.trials| && s.hist.trials[i].op == x &&
                Fatal(s.hist.requests[x], s.hist.trials[i].stage, s.hist.trials[i].net)
  }

  /** Some attempt of the operation has had all it needs. */
  predicate MetSuccess(s: State, x: nat)
    requires x < |s.hist.requests|
  {
    exists i :: 0 <= i < |s.hist.trials| && s.hist.trials[i].op == x &&
                Succeeds(s.hist.requests[x], s.hist.trials[i].stage, s.hist.trials[i].net)
  }

  predicate KeptAt(s: State, x: nat)
    requires x < |s.cells| == |s.hist.requests|
  {
    Kept(s.hist.requests[x], s.cells[x], NetsOf(s.hist.trials, x)) &&
    (s.hist.requests[x].Sub? && LastCodes(|s.hist.requests[x].subs|, NetsOf(s.hist.trials, x)).Some? ==>
       x in s.hist.acks) &&
    (x in s.hist.ended <==> MetEnd(s, x)) && (x in s.hist.acks <==> MetSuccess(s, x))
  }

  /** Continuations belong to requests that can be packed. */
  predicate PackedEntries(s: State, q: seq<Entry>) {
    forall i :: 0 <= i < |q| && q[i].Resume? ==> q[i].op < |s.hist.requests| && Encodable(s.hist.requests[q[i].op])
  }

  /** Memory is what the attempts on record have made of the requests. */
  predicate Recorded(s: State, q: seq<Entry>) {
    |s.cells| == |s.hist.requests| && (forall x: nat | x < |s.cells| :: KeptAt(s, x)) &&
    (forall i :: 0 <= i < |s.hist.trials| ==> s.hist.trials[i].op < |s.cells|) &&
    (forall i :: 0 <= i < |s.hist.ended| ==> s.hist.ended[i] < |s.cells|) &&
    (forall i :: 0 <= i < |s.hist.acks| ==> s.hist.acks[i] < |s.cells|) && PackedEntries(s, q)
  }

  /** One more attempt on record. */
  predicate OneMore(s: State, op: nat, net: Net, t: Try, s': State) {
    s'.hist.requests == s.hist.requests && s'.hist.trials == s.hist.trials + [Trial(op, t.stage, net)]
  }

  lemma MetEndStep(s: State, op: nat, net: Net, t: Try, s': State, x: nat)
    requires OneMore(s, op, net, t, s') && x < |s.hist.requests|
    ensures MetEnd(s', x) <==> MetEnd(s, x) || (x == op && Fatal(s.hist.requests[x], t.stage, net))
  {
    var a, b := s.hist.trials, s'.hist.trials;
    assert b[|a|] == Trial(op, t.stage, net);
    if MetEnd(s, x) {
      var i :| 0 <= i < |a| && a[i].op == x && Fatal(s.hist.requests[x], a[i].stage, a[i].net);
      assert b[i] == a[i];
    }
    if MetEnd(s', x) {
      var i :| 0 <= i < |b| && b[i].op == x && Fatal(s.hist.requests[x], b[i].stage, b[i].net);
      if i < |a| {
        assert a[i] == b[i];
      }
    }
  }

  lemma MetSuccessStep(s: State, op: nat, net: Net, t: Try, s': State, x: nat)
    requires OneMore(s, op, net, t, s') && x < |s.hist.requests|
    ensures MetSuccess(s', x) <==> MetSuccess(s, x) || (x == op && Succeeds(s.hist.requests[x], t.stage, net))
  {
    var a, b := s.hist.trials, s'.hist.trials;
    assert b[|a|] == Trial(op, t.stage, net);
    if MetSuccess(s, x) {
      var i :| 0 <= i < |a| && a[i].op == x && Succeeds(s.hist.requests[x], a[i].stage, a[i].net);
      assert b[i] == a[i];
    }
    if MetSuccess(s', x) {
      var i :| 0 <= i < |b| && b[i].op == x && Succeeds(s.hist.requests[x], b[i].stage, b[i].net);
      if i < |a| {
        assert a[i] == b[i];
      }
    }
  }

  lemma OthersKept(s: State, op: nat, first: bool, net: Net, t: Try, s': State, x: nat)
    requires op < |s.cells| == |s.hist.requests| && Attempted(s, op, first, net, t, s')
    requires x != op && x < |s.cells| && KeptAt(s, x)
    ensures KeptAt(s', x)
  {
    NoteView(s, op, net, t, x);
    assert NetsOf(s.hist.trials, x) + [] == NetsOf(s.hist.trials, x);
    MetEndStep(s, op, net, t, s', x);
    MetSuccessStep(s, op, net, t, s', x);
  }

  lemma OwnKept(s: State, op: nat, first: bool, stage: Stage, net: Net, t: Try, s': State)
    requires op < |s.cells| == |s.hist.requests| && Attempted(s, op, first, net, t, s') && KeptAt(s, op)
    requires t == TryRequest(s.cells[op], stage, net) && t.result != Crashed
    ensures KeptAt(s', op)
  {
    var r, nets := s.hist.requests[op], NetsOf(s.hist.trials, op);
    TryKept(r, s.cells[op], nets, stage, net);
    EndsExactly(r, s.cells[op], nets, stage, net);
    MetEndStep(s, op, net, t, s', op);
    AcksExactly(r, s.cells[op], nets, stage, net);
    MetSuccessStep(s, op, net, t, s', op);
    NoteView(s, op, net, t, op);
    assert (nets + [net])[..|nets|] == nets;
    if r.Sub? && Grants(|r.subs|, net) {
      assert t.result == Acked;
    }
  }

  lemma AttemptRecorded(s: State, op: nat, first: bool, stage: Stage, net: Net, t: Try, s': State, q: seq<Entry>)
    requires op < |s.cells| && Recorded(s, q) && Attempted(s, op, first, net, t, s')
    requires t == TryRequest(s.cells[op], stage, net) && t.result != Crashed
    ensures Recorded(s', q)
  {
    forall x: nat | x < |s.cells| ensures KeptAt(s', x) {
      assert KeptAt(s, x);
      if x == op {
        OwnKept(s, op, first, stage, net, t, s');
      } else {
        OthersKept(s, op, first, net, t, s', x);
      }
    }
  }

  lemma MoreEntries(s: State, a: seq<Entry>, b: seq<Entry>, c: seq<Entry>)
    requires Recorded(s, a + c) && PackedEntries(s, b)
    ensures Recorded(s, (a + b) + c)
  {
    var q, q' := a + c, (a + b) + c;
    forall i | 0 <= i < |q'| && q'[i].Resume?
      ensures q'[i].op < |s.hist.requests| && Encodable(s.hist.requests[q'[i].op])
    {
      if i < |a| {
        assert q'[i] == q[i];
      } else if i >= |a| + |b| {
        assert q'[i] == q[i - |b|];
      } else {
        assert q'[i] == b[i - |a|];
      }
    }
  }

  /** It depends only on memory, requests, trials, acknowledgements and endings. */
  lemma SameRecorded(s: State, s': State, q: seq<Entry>)
    requires Recorded(s, q) && s'.cells == s.cells && s'.hist.requests == s.hist.requests
    requires s'.hist.trials == s.hist.trials && s'.hist.acks == s.hist.acks && s'.hist.ended == s.hist.ended
    ensures Recorded(s', q)
  {
    forall x: nat | x < |s.cells| ensures KeptAt(s', x) {
      assert KeptAt(s, x);
    }
  }
}
