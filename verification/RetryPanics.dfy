/**
 When the retry engine panics, for every run; and that a run of sound calls panics only if
 Disconnect is called again or a pass that broke had run a Subscribe.
 */
module RetryPanics {
  import opened Bytes
  import opened Messages
  import opened Subscriptions
  import opened Sender
  import opened RetryModel
  import opened RetryOrder
  import opened RetryConservation
  import opened RetryWire
  import opened RetryDelivery
  import opened RetryEffects
  import opened RetrySubscriptions
  import opened RetryMemory
  import opened RetryAcceptance

  // ---- The condition ----

  /**
   The first attempt of a request panics: an Unsubscribe takes more entries off the list than
   there are, or a connected client takes a request that cannot be packed.
   */
  predicate FirstHits(list: seq<Subscription>, r: Request, net: Net) {
    || !Applied(list, r).Ok?
    || (net.connected && !Encodable(r) && (r.Pub? ==> Valid(r.msg, net.maxPayload)))
  }

  /** A task that is a call panics. */
  predicate SubmitHits(s: State, op: nat, net: Net)
    requires op < |s.cells| && op < |s.hist.requests|
  {
    !Refused(s, op, net) && s.queue == [] && FirstHits(s.established, s.hist.requests[op], net)
  }

  /** A Resubscribe reaches a first attempt that panics. */
  predicate ResubscribeHits(s: State, saved: seq<Subscription>, nets: seq<Net>, i: nat)
    requires i <= |saved|
    decreases |saved| - i
  {
    i < |saved| &&
    ((s.queue == [] && FirstHits(s.established, Sub([saved[i]]), NetAt(nets, i))) ||
     ResubscribeHits(ResubscribeOne(s, saved[i], NetAt(nets, i)), saved, nets, i + 1))
  }

  /** A continuation of a Subscribe whose last SUBACK rejected a topic runs on a connected client. */
  predicate RunsRejected(s: State, e: Entry, net: Net)
    requires e.op < |s.hist.requests|
  {
    e.Resume? && net.connected && WasRejected(s.hist.requests[e.op], NetsOf(s.hist.trials, e.op))
  }

  predicate EntryHits(s: State, e: Entry, net: Net)
    requires e.op < |s.hist.requests|
  {
    RunsRejected(s, e, net) || (e.Fresh? && FirstHits(s.established, s.hist.requests[e.op], net))
  }

  /** A pass reaches, before it breaks, an entry that panics. */
  predicate PassHits(s: State, saved: seq<Entry>, nets: seq<Net>, i: nat)
    requires i <= |saved| && InMemory(saved, s) && |s.cells| == |s.hist.requests|
    decreases |saved| - i
  {
    i < |saved| &&
    (EntryHits(s, saved[i], NetAt(nets, i)) ||
     (!Breaks(s, saved[i], NetAt(nets, i)) &&
      PassHits(RunEntry(s, saved[i], NetAt(nets, i)), saved, nets, i + 1)))
  }

  predicate TaskHits(s: State, t: Task, nets: seq<Net>)
    requires Linked(s) && (t.Do? ==> t.op < |s.cells|)
  {
    match t
    case Do(op) => SubmitHits(s, op, NetAt(nets, 0))
    case Resubscribe => ResubscribeHits(Cleared(s), s.established, nets, 0)
    case Retry => PassHits(s.(queue := []), s.queue, nets, 0)
    case Disconnect => false
  }

  /** The condition on a step. */
  predicate Panics(s: State, e: Event)
    requires Linked(s)
  {
    match e
    case CallDisconnect => s.stopped
    case LoopTurn(nets) => s.tasks != [] && TaskHits(Popped(s), s.tasks[0], nets)
    case _ => false
  }

  // ---- It is exact ----

  lemma FirstSafe(s: State, op: nat, net: Net, rest: seq<Entry>)
    requires op < |s.cells| && !s.crashed && Recorded(s, s.queue + rest) && s.cells[op] == s.hist.requests[op]
    ensures var s' := FirstAttempt(s, op, net);
            (s'.crashed <==> FirstHits(s.established, s.hist.requests[op], net)) &&
            (!s'.crashed ==> Recorded(s', s'.queue + rest))
  {
    var s', t := FirstAttempt(s, op, net), TryRequest(s.cells[op], First, net);
    FirstCrash(s.cells[op], net);
    if !s'.crashed {
      AttemptRecorded(s, op, true, First, net, t, s', s.queue + rest);
      MoreEntries(s', s.queue, if t.result.Again? then [Resume(op, t.result.stage)] else [], rest);
    }
  }

  lemma SubmitSafe(s: State, op: nat, net: Net)
    requires op < |s.cells| && !s.crashed && Recorded(s, s.queue) && s.cells[op] == s.hist.requests[op]
    ensures var s' := Submit(s, op, net);
            (s'.crashed <==> SubmitHits(s, op, net)) && (!s'.crashed ==> Recorded(s', s'.queue))
  {
    var s', i := Submit(s, op, net), Issue(s, op);
    if Refused(s, op, net) {
      SameRecorded(s, s', s.queue);
    } else if s.queue != [] {
      SameRecorded(s, s', s.queue);
      assert s.queue + [] == s.queue && (s.queue + [Fresh(op)]) + [] == s'.queue;
      MoreEntries(s', s.queue, [Fresh(op)], []);
    } else {
      SameRecorded(s, i, s.queue);
      assert i.queue + [] == i.queue;
      FirstSafe(i, op, net, []);
      assert s'.queue + [] == s'.queue;
    }
  }

  lemma AllocateRecorded(s: State, r: Request)
    requires Recorded(s, s.queue)
    ensures Recorded(Allocate(s, r), s.queue)
  {
    var a := Allocate(s, r);
    NoTrials(s.hist.trials, |s.cells|);
    forall x: nat | x < |a.cells| ensures KeptAt(a, x) {
      if x < |s.cells| {
        assert KeptAt(s, x);
        assert MetEnd(a, x) <==> MetEnd(s, x);
        assert MetSuccess(a, x) <==> MetSuccess(s, x);
      } else {
        assert !MetEnd(a, x) && !MetSuccess(a, x);
      }
    }
  }

  lemma OneSafe(s: State, sub: Subscription, net: Net)
    requires !s.crashed && Recorded(s, s.queue)
    ensures var s' := ResubscribeOne(s, sub, net);
            (s'.crashed <==> s.queue == [] && FirstHits(s.established, Sub([sub]), net)) &&
            (!s'.crashed ==> Recorded(s', s'.queue))
  {
    AllocateRecorded(s, Sub([sub]));
    SubmitSafe(Allocate(s, Sub([sub])), |s.cells|, net);
  }

  lemma {:induction false} ResubscribeSafe(s: State, saved: seq<Subscription>, nets: seq<Net>, i: nat)
    requires i <= |saved| && !s.crashed && Recorded(s, s.queue)
    ensures var s' := ResubscribeFrom(s, saved, nets, i);
            (s'.crashed <==> ResubscribeHits(s, saved, nets, i)) && (!s'.crashed ==> Recorded(s', s'.queue))
    decreases |saved| - i
  {
    if i < |saved| {
      OneSafe(s, saved[i], NetAt(nets, i));
      var s1 := ResubscribeOne(s, saved[i], NetAt(nets, i));
      if !s1.crashed {
        ResubscribeSafe(s1, saved, nets, i + 1);
      }
    }
  }

  lemma EntrySafe(s: State, saved: seq<Entry>, nets: seq<Net>, i: nat)
    requires i < |saved| && !s.crashed && PassReady(s, saved, i) && Recorded(s, s.queue + saved)
    ensures var s1 := RunEntry(s, saved[i], NetAt(nets, i));
            (s1.crashed <==> EntryHits(s, saved[i], NetAt(nets, i))) &&
            (!s1.crashed ==> Recorded(s1, s1.queue + saved) && PassReady(s1, saved, i + 1))
  {
    var e, net := saved[i], NetAt(nets, i);
    ReadyEntry(s, saved, nets, i);
    if e.Fresh? {
      FirstSafe(s, e.op, net, saved);
    } else {
      assert (s.queue + saved)[|s.queue| + i] == e;
      ResumeSafe(s, e, net, s.queue + saved);
    }
  }

  lemma ResumeSafe(s: State, e: Entry, net: Net, q: seq<Entry>)
    requires e.Resume? && e.stage != First && e.op < |s.cells| && !s.crashed && Recorded(s, q) && e in q
    ensures var s' := RunResume(s, e.op, e.stage, net);
            (s'.crashed <==> RunsRejected(s, e, net)) && (!s'.crashed ==> Recorded(s', q))
  {
    var t := TryRequest(s.cells[e.op], e.stage, net);
    assert KeptAt(s, e.op);
    ResumeCrash(s.hist.requests[e.op], s.cells[e.op], NetsOf(s.hist.trials, e.op), e.stage, net);
    if t.result != Crashed {
      AttemptRecorded(s, e.op, false, e.stage, net, t, RunResume(s, e.op, e.stage, net), q);
    }
  }

  lemma BreakRecorded(s: State, s1: State, saved: seq<Entry>, nets: seq<Net>, i: nat)
    requires i < |saved| && !s.crashed && PassReady(s, saved, i) && Breaks(s, saved[i], NetAt(nets, i))
    requires s1 == RunEntry(s, saved[i], NetAt(nets, i)) && !s1.crashed && Recorded(s1, s1.queue + saved)
    ensures var s' := RetryFrom(s, saved, nets, i); !s'.crashed && Recorded(s', s'.queue)
  {
    var e, s' := saved[i], RetryFrom(s, saved, nets, i);
    SameRecorded(s1, s', s1.queue + saved);
    var c := Resume(e.op, TryRequest(s.cells[e.op], e.stage, NetAt(nets, i)).result.stage);
    assert (s1.queue + saved)[|s1.queue| + i] == e;
    MoreEntries(s', s1.queue, [c], saved);
  }

  lemma {:induction false} PassSafe(s: State, saved: seq<Entry>, nets: seq<Net>, i: nat)
    requires i <= |saved| && !s.crashed && PassReady(s, saved, i) && Recorded(s, s.queue + saved)
    ensures var s' := RetryFrom(s, saved, nets, i);
            (s'.crashed <==> PassHits(s, saved, nets, i)) && (!s'.crashed ==> Recorded(s', s'.queue))
    decreases |saved| - i
  {
    if i < |saved| {
      var s1 := RunEntry(s, saved[i], NetAt(nets, i));
      EntrySafe(s, saved, nets, i);
      if !s1.crashed {
        if Breaks(s, saved[i], NetAt(nets, i)) {
          BreakRecorded(s, s1, saved, nets, i);
        } else {
          PassSafe(s1, saved, nets, i + 1);
        }
      }
    } else {
      FewerEntries(s, s.queue, saved);
    }
  }

  lemma FewerEntries(s: State, a: seq<Entry>, b: seq<Entry>)
    requires Recorded(s, a + b)
    ensures Recorded(s, a)
  {
    forall i | 0 <= i < |a| && a[i].Resume?
      ensures a[i].op < |s.hist.requests| && Encodable(s.hist.requests[a[i].op])
    {
      assert (a + b)[i] == a[i];
    }
  }

  lemma TaskSafe(s: State, t: Task, nets: seq<Net>)
    requires Settled(s) && !s.crashed && Recorded(s, s.queue)
    requires t.Do? ==> t.op < |s.cells| && s.cells[t.op] == s.hist.requests[t.op]
    ensures var s' := Perform(s, t, nets);
            (s'.crashed <==> TaskHits(s, t, nets)) && (!s'.crashed ==> Recorded(s', s'.queue))
  {
    match t
    case Do(op) => SubmitSafe(s, op, NetAt(nets, 0));
    case Resubscribe =>
      SameRecorded(s, Cleared(s), s.queue);
      ResubscribeSafe(Cleared(s), s.established, nets, 0);
    case Retry =>
      var s0 := s.(queue := []);
      ReadyStart(s);
      SameRecorded(s, s0, s.queue);
      assert s0.queue + s.queue == s.queue;
      PassSafe(s0, s.queue, nets, 0);
    case Disconnect =>
  }

  lemma TurnSafe(s: State, nets: seq<Net>)
    requires Settled(s) && !s.crashed && Recorded(s, s.queue) && s.tasks != []
    ensures var s' := Turn(s, nets);
            (s'.crashed <==> Panics(s, LoopTurn(nets))) && (!s'.crashed ==> Recorded(s', s'.queue))
  {
    SettledTask(s);
    SameRecorded(s, Popped(s), s.queue);
    TaskSafe(Popped(s), s.tasks[0], nets);
    var p := Perform(Popped(s), s.tasks[0], nets);
    if !p.crashed {
      SameRecorded(p, Turn(s, nets), p.queue);
    }
  }

  /** A step from any reachable state panics exactly under the condition. */
  lemma StepSafe(s: State, e: Event)
    requires Settled(s) && !s.crashed && Recorded(s, s.queue)
    ensures (Step(s, e).crashed <==> Panics(s, e)) &&
            (!Step(s, e).crashed ==> Recorded(Step(s, e), Step(s, e).queue))
  {
    if e.LoopTurn? {
      if s.tasks != [] {
        TurnSafe(s, e.nets);
      }
    } else if Step(s, e).cells == s.cells {
      SameRecorded(s, Step(s, e), s.queue);
    } else {
      AllocateRecorded(s, e.request);
      SameRecorded(Allocate(s, e.request), Step(s, e), s.queue);
    }
  }

  lemma {:induction false} AlwaysRecorded(events: seq<Event>)
    ensures !After(events).crashed ==> Recorded(After(events), After(events).queue)
  {
    if events != [] {
      var n := |events| - 1;
      var s := After(events[..n]);
      AlwaysRecorded(events[..n]);
      AlwaysSettled(events[..n]);
      if !s.crashed {
        StepSafe(s, events[n]);
      } else {
        StaysCrashed(s, events[n]);
      }
    }
  }

  /** The k-th step of the run meets the condition. */
  predicate PanicsAt(events: seq<Event>, k: nat)
    requires k < |events|
  {
    !After(events[..k]).crashed && Panics(After(events[..k]), events[k])
  }

  predicate SomewherePanics(events: seq<Event>) {
    exists k :: 0 <= k < |events| && PanicsAt(events, k)
  }

  lemma PanicsStep(events: seq<Event>)
    requires events != []
    ensures var n := |events| - 1;
            SomewherePanics(events) <==> SomewherePanics(events[..n]) || PanicsAt(events, n)
  {
    var n := |events| - 1;
    var before := events[..n];
    forall k | 0 <= k < n ensures PanicsAt(events, k) == PanicsAt(before, k) {
      assert before[..k] == events[..k];
    }
    if SomewherePanics(before) {
      var k :| 0 <= k < n && PanicsAt(before, k);
      assert PanicsAt(events, k);
    }
  }

  /** Every run: it has panicked if and only if one of its steps met the condition. */
  lemma {:induction false} PanicExact(events: seq<Event>)
    ensures After(events).crashed <==> SomewherePanics(events)
  {
    if events != [] {
      var n := |events| - 1;
      var s := After(events[..n]);
      PanicExact(events[..n]);
      PanicsStep(events);
      if !s.crashed {
        AlwaysRecorded(events[..n]);
        AlwaysSettled(events[..n]);
        StepSafe(s, events[n]);
      } else {
        StaysCrashed(s, events[n]);
      }
    }
  }

  /**
   In every run, an operation has ended with a non-retryable error if and only if one of its
   attempts met a fatal environment.
   */
  lemma EndedExactly(events: seq<Event>, x: nat)
    requires var s := After(events); !s.crashed && x < |s.hist.requests|
    ensures x in After(events).hist.ended <==> MetEnd(After(events), x)
  {
    AlwaysRecorded(events);
    assert KeptAt(After(events), x);
  }

  /**
   In every run, an operation was acknowledged if and only if one of its attempts found the client
   connected, wrote what it had to, and had every acknowledgement of its kind.
   */
  lemma AckedExactly(events: seq<Event>, x: nat)
    requires var s := After(events); !s.crashed && x < |s.hist.requests|
    ensures x in After(events).hist.acks <==> MetSuccess(After(events), x)
  {
    AlwaysRecorded(events);
    assert KeptAt(After(events), x);
  }

  /** After the last SUBACK for a Subscribe, topic i is in memory with code i, and as requested otherwise. */
  lemma CodesInPlace(events: seq<Event>, x: nat, i: nat)
    requires var s := After(events);
             !s.crashed && x < |s.hist.requests| && s.hist.requests[x].Sub? && i < |s.hist.requests[x].subs|
    ensures var s := After(events);
            var subs := s.hist.requests[x].subs;
            var codes := LastCodes(|subs|, NetsOf(s.hist.trials, x));
            x < |s.cells| && s.cells[x].Sub? && i < |s.cells[x].subs| && s.cells[x].subs[i].topic == subs[i].topic &&
            s.cells[x].subs[i].qos == if codes.Some? then codes.value[i] else subs[i].qos
  {
    AlwaysRecorded(events);
    assert KeptAt(After(events), x);
  }

  // ---- Sound calls ----

  /** A request that can be packed if a client takes it at all, and names no topic twice to unsubscribe. */
  predicate Sound(r: Request) {
    match r
    case Pub(m) => m.qos <= 2 ==> Fits(m)
    case Sub(_) => Encodable(r)
    case Unsub(topics) => Encodable(r) && NoDuplicates(topics)
  }

  lemma SoundFirst(list: seq<Subscription>, r: Request, net: Net)
    requires Sound(r)
    ensures !FirstHits(list, r, net)
  {
    if r.Unsub? {
      RemovesOnePerTopic(list, r.topics);
    }
  }

  predicate AllSound(requests: seq<Request>) {
    forall i :: 0 <= i < |requests| ==> Sound(requests[i])
  }

  predicate SoundList(list: seq<Subscription>) {
    forall i :: 0 <= i < |list| ==> list[i].qos <= 2 && |list[i].topic| <= 0xFFFF
  }

  lemma AppliedSound(list: seq<Subscription>, r: Request)
    requires SoundList(list) && Sound(r) && Applied(list, r).Ok?
    ensures SoundList(Applied(list, r).value)
  {
    if r.Unsub? {
      RemovesOnePerTopic(list, r.topics);
      var l := Unsubscribed(list, r.topics).value;
      forall i | 0 <= i < |l| ensures l[i] in list {
        assert l[i] in multiset(l);
      }
    }
  }

  lemma {:induction false} ReplaySound(ops: seq<nat>, requests: seq<Request>)
    requires Below(ops, |requests|) && AllSound(requests) && Replay([], ops, requests).Ok?
    ensures SoundList(Replay([], ops, requests).value)
  {
    if ops != [] {
      ReplaySound(ops[..|ops| - 1], requests);
      AppliedSound(Replay([], ops[..|ops| - 1], requests).value, requests[ops[|ops| - 1]]);
    }
  }

  lemma SingleSound(sub: Subscription)
    requires sub.qos <= 2 && |sub.topic| <= 0xFFFF
    ensures Sound(Sub([sub]))
  {
    assert [sub][1..] == [];
    assert SubscribeLength([sub]) == 3 + |sub.topic| + 2;
  }

  lemma {:induction false} SoundResubscribe(s: State, saved: seq<Subscription>, nets: seq<Net>, i: nat)
    requires i <= |saved| && SoundList(saved)
    ensures !ResubscribeHits(s, saved, nets, i)
    decreases |saved| - i
  {
    if i < |saved| {
      SingleSound(saved[i]);
      SoundFirst(s.established, Sub([saved[i]]), NetAt(nets, i));
      SoundResubscribe(ResubscribeOne(s, saved[i], NetAt(nets, i)), saved, nets, i + 1);
    }
  }

  /** A pass reaches the continuation of a Subscribe whose last SUBACK rejected a topic. */
  predicate PassRejected(s: State, saved: seq<Entry>, nets: seq<Net>, i: nat)
    requires i <= |saved| && InMemory(saved, s) && |s.cells| == |s.hist.requests|
    decreases |saved| - i
  {
    i < |saved| &&
    (RunsRejected(s, saved[i], NetAt(nets, i)) ||
     (!Breaks(s, saved[i], NetAt(nets, i)) &&
      PassRejected(RunEntry(s, saved[i], NetAt(nets, i)), saved, nets, i + 1)))
  }

  lemma {:induction false} SoundPass(s: State, saved: seq<Entry>, nets: seq<Net>, i: nat)
    requires i <= |saved| && InMemory(saved, s) && |s.cells| == |s.hist.requests| && AllSound(s.hist.requests)
    ensures PassHits(s, saved, nets, i) <==> PassRejected(s, saved, nets, i)
    decreases |saved| - i
  {
    if i < |saved| {
      SoundFirst(s.established, s.hist.requests[saved[i].op], NetAt(nets, i));
      SoundPass(RunEntry(s, saved[i], NetAt(nets, i)), saved, nets, i + 1);
    }
  }

  /** With sound requests, Disconnect again or a rejected continuation. */
  predicate SoundPanics(s: State, e: Event)
    requires Linked(s)
  {
    match e
    case CallDisconnect => s.stopped
    case LoopTurn(nets) =>
      s.tasks != [] && s.tasks[0] == Retry && PassRejected(Popped(s).(queue := []), s.queue, nets, 0)
    case _ => false
  }

  lemma SoundStep(s: State, e: Event)
    requires Settled(s) && AllSound(s.hist.requests)
    ensures Panics(s, e) <==> SoundPanics(s, e)
  {
    if e.LoopTurn? && s.tasks != [] {
      match s.tasks[0]
      case Do(op) => SoundFirst(s.established, s.hist.requests[op], NetAt(e.nets, 0));
      case Resubscribe =>
        ReplaySound(Recent(s), s.hist.requests);
        SoundResubscribe(Cleared(Popped(s)), s.established, e.nets, 0);
      case Retry => SoundPass(Popped(s).(queue := []), s.queue, e.nets, 0);
      case Disconnect =>
    }
  }

  /** Every request that its call does not reject is sound. */
  predicate SoundCalls(events: seq<Event>) {
    forall i :: 0 <= i < |events| && events[i].Call? && !Rejected(events[i].request, events[i].limit) ==>
      Sound(events[i].request)
  }

  lemma SinglesSound(requests: seq<Request>, list: seq<Subscription>)
    requires AllSound(requests) && SoundList(list)
    ensures AllSound(requests + Singles(list))
  {
    forall i | 0 <= i < |list| ensures Sound(Singles(list)[i]) {
      SingleSound(list[i]);
    }
  }

  lemma StepSound(s: State, e: Event)
    requires Settled(s) && !s.crashed && AllSound(s.hist.requests) && !Step(s, e).crashed
    requires e.Call? && !Rejected(e.request, e.limit) ==> Sound(e.request)
    ensures AllSound(Step(s, e).hist.requests)
  {
    if e.LoopTurn? && s.tasks != [] && s.tasks[0] == Resubscribe {
      ReplaySound(Recent(s), s.hist.requests);
      ResubscribeTurn(s, e.nets);
      SinglesSound(s.hist.requests, s.established);
    }
  }

  lemma {:induction false} AlwaysSound(events: seq<Event>)
    requires SoundCalls(events)
    ensures !After(events).crashed ==> AllSound(After(events).hist.requests)
  {
    if events != [] {
      var n := |events| - 1;
      var s := After(events[..n]);
      SoundPrefix(events, n);
      AlwaysSound(events[..n]);
      AlwaysSettled(events[..n]);
      if s.crashed {
        StaysCrashed(s, events[n]);
      } else if !Step(s, events[n]).crashed {
        StepSound(s, events[n]);
      }
    }
  }

  lemma SoundPrefix(events: seq<Event>, k: nat)
    requires SoundCalls(events) && k < |events|
    ensures SoundCalls(events[..k])
    ensures events[k].Call? && !Rejected(events[k].request, events[k].limit) ==> Sound(events[k].request)
  {
  }

  // ---- Without a broken pass ----

  /** Some Subscribe has been put back after it had run. */
  predicate SubDoubled(s: State) {
    exists i :: 0 <= i < |s.hist.doubled| && s.hist.doubled[i] < |s.hist.requests| &&
                s.hist.requests[s.hist.doubled[i]].Sub?
  }

  lemma OnceLeft(s: State, saved: seq<Entry>, i: nat, x: nat)
    requires i <= |saved| && PassRefines(s, saved, i) && x !in s.hist.doubled
    ensures Places(s, x) + Queued(saved[i..], x) <= 1
  {
  }

  /** A rejected Subscribe was acknowledged, so a pass finds it in the queue only if it was doubled. */
  lemma RejectedDoubled(s: State, saved: seq<Entry>, nets: seq<Net>, i: nat)
    requires i < |saved| && PassRefines(s, saved, i) && Recorded(s, s.queue + saved)
    requires RunsRejected(s, saved[i], NetAt(nets, i))
    ensures SubDoubled(s)
  {
    var x := saved[i].op;
    assert KeptAt(s, x) && x in s.hist.acks;
    Occurs(s.hist.acks, x);
    assert saved[i..] == [saved[i]] + saved[i + 1..];
    QueueCons(saved[i], saved[i + 1..], x);
    if x !in s.hist.doubled {
      OnceLeft(s, saved, i, x);
      assert false;
    }
    var k :| 0 <= k < |s.hist.doubled| && s.hist.doubled[k] == x;
    assert s.hist.requests[s.hist.doubled[k]].Sub?;
  }

  lemma {:induction false} PassRejectedDoubled(s: State, saved: seq<Entry>, nets: seq<Net>, i: nat)
    requires i <= |saved| && !s.crashed && PassReady(s, saved, i) && PassRefines(s, saved, i)
    requires Recorded(s, s.queue + saved) && AllSound(s.hist.requests) && PassRejected(s, saved, nets, i)
    ensures SubDoubled(s)
    decreases |saved| - i
  {
    var e, net := saved[i], NetAt(nets, i);
    if RunsRejected(s, e, net) {
      RejectedDoubled(s, saved, nets, i);
    } else {
      EntrySafe(s, saved, nets, i);
      SoundFirst(s.established, s.hist.requests[e.op], net);
      PassTracksEntry(s, saved, nets, i);
      PassRejectedDoubled(RunEntry(s, e, net), saved, nets, i + 1);
      assert RunEntry(s, e, net).hist.doubled == s.hist.doubled;
    }
  }

  lemma TurnRejectedDoubled(events: seq<Event>, nets: seq<Net>)
    requires SoundCalls(events) && !After(events).crashed && SoundPanics(After(events), LoopTurn(nets))
    ensures SubDoubled(After(events))
  {
    var s := After(events);
    AlwaysSound(events);
    AlwaysRecorded(events);
    AlwaysSettled(events);
    AlwaysBalanced(events);
    AlwaysTracks(events);
    SettledTask(s);
    var p := Popped(s);
    QuietRefines(s, p);
    PassStart(p);
    ReadyStart(p);
    SameRecorded(s, p.(queue := []), s.queue);
    assert [] + s.queue == s.queue;
    PassRejectedDoubled(p.(queue := []), s.queue, nets, 0);
  }

  predicate SingleDisconnect(events: seq<Event>) {
    forall i, j :: 0 <= i < j < |events| ==> !(events[i].CallDisconnect? && events[j].CallDisconnect?)
  }

  lemma NotStoppedTwice(events: seq<Event>, k: nat)
    requires SingleDisconnect(events) && k < |events| && events[k].CallDisconnect? && !After(events[..k]).crashed
    ensures !After(events[..k]).stopped
  {
    StoppedExactly(events[..k]);
  }

  /** What has been doubled stays so in a Retry turn. */
  lemma StillDoubled(s: State, nets: seq<Net>)
    requires Linked(s) && !s.crashed && s.tasks != [] && s.tasks[0] == Retry && SubDoubled(s)
    ensures SubDoubled(Turn(s, nets))
  {
    var s' := Turn(s, nets);
    assert s'.hist.requests == s.hist.requests && s.hist.doubled <= s'.hist.doubled;
    var i :| 0 <= i < |s.hist.doubled| && s.hist.doubled[i] < |s.hist.requests| &&
             s.hist.requests[s.hist.doubled[i]].Sub?;
    assert s'.hist.doubled[i] == s.hist.doubled[i];
  }

  lemma TurnEndsDoubled(events: seq<Event>, k: nat)
    requires SoundCalls(events) && k < |events| && PanicsAt(events, k) && events[k].LoopTurn?
    ensures SubDoubled(After(events[..k + 1]))
  {
    SoundPrefix(events, k);
    AlwaysSound(events[..k]);
    AlwaysSettled(events[..k]);
    SoundStep(After(events[..k]), events[k]);
    TurnRejectedDoubled(events[..k], events[k].nets);
    StillDoubled(After(events[..k]), events[k].nets);
    assert events[..k + 1][..k] == events[..k];
  }

  lemma {:induction false} CrashedSince(events: seq<Event>, k: nat)
    requires k <= |events| && After(events[..k]).crashed
    ensures After(events).crashed && After(events).hist == After(events[..k]).hist
    decreases |events|
  {
    if k == |events| {
      assert events[..k] == events;
    } else {
      var before := events[..|events| - 1];
      assert before[..k] == events[..k];
      CrashedSince(before, k);
      StaysCrashed(After(before), events[|events| - 1]);
    }
  }

  lemma CrashAt(events: seq<Event>, k: nat)
    requires k < |events| && PanicsAt(events, k)
    ensures After(events[..k + 1]).crashed
  {
    assert events[..k + 1][..k] == events[..k];
    AlwaysRecorded(events[..k]);
    AlwaysSettled(events[..k]);
    StepSafe(After(events[..k]), events[k]);
  }

  lemma PanicDoubles(events: seq<Event>, k: nat)
    requires SoundCalls(events) && SingleDisconnect(events) && k < |events| && PanicsAt(events, k)
    ensures SubDoubled(After(events))
  {
    if events[k].CallDisconnect? {
      NotStoppedTwice(events, k);
    }
    TurnEndsDoubled(events, k);
    CrashAt(events, k);
    CrashedSince(events, k + 1);
  }

  /**
   A run of sound calls with at most one Disconnect never panics, whatever fails, unless a Retry
   pass broke after having run a Subscribe.
   */
  lemma NeverPanics(events: seq<Event>)
    requires SoundCalls(events) && SingleDisconnect(events) && !SubDoubled(After(events))
    ensures !After(events).crashed
  {
    PanicExact(events);
    if SomewherePanics(events) {
      var k :| 0 <= k < |events| && PanicsAt(events, k);
      PanicDoubles(events, k);
    }
  }
}
