/**
 End-to-end delivery: as long as no Retry pass breaks after having run an entry of a
 message, the retry engine's handling of that message is exactly a run of the sender's
 chain, so the sender's guarantees carry over to the whole client.
 */
module RetryDelivery {
  import opened Messages
  import opened Subscriptions
  import opened Sender
  import opened RetryModel
  import opened RetryOrder
  import opened RetryBlocks
  import opened RetryConservation
  import opened RetryWire

  /** The stage at which the first Resume entry of the operation continues. */
  function StageIn(q: seq<Entry>, x: nat): Stage {
    if q == [] then First
    else if q[0].op == x && q[0].Resume? then q[0].stage
    else StageIn(q[1..], x)
  }

  lemma {:induction false} StageInAppend(a: seq<Entry>, b: seq<Entry>, x: nat)
    ensures Queued(a, x) == 0 ==> StageIn(a + b, x) == StageIn(b, x)
  {
    if a == [] {
      assert a + b == b;
    } else {
      assert (a + b)[1..] == a[1..] + b;
      StageInAppend(a[1..], b, x);
      assert a == [a[0]] + a[1..];
      QueueAppend([a[0]], a[1..], x);
      QueueSnoc([], a[0], x);
      assert [] + [a[0]] == [a[0]];
    }
  }

  /** Entries of other operations do not matter. */
  lemma {:induction false} StageInWithout(a: seq<Entry>, e: Entry, b: seq<Entry>, x: nat)
    requires e.op != x
    ensures StageIn(a + ([e] + b), x) == StageIn(a + b, x)
  {
    if a == [] {
      assert ([e] + b)[1..] == b;
      assert [] + ([e] + b) == [e] + b && [] + b == b;
    } else {
      assert (a + ([e] + b))[1..] == a[1..] + ([e] + b) && (a + b)[1..] == a[1..] + b;
      StageInWithout(a[1..], e, b, x);
    }
  }

  /** Where an operation stands, read off the history and the queue. */
  function StatusIn(h: History, q: seq<Entry>, x: nat): Status {
    if x in h.acks then Over(true)
    else if x in h.ended then Over(false)
    else if x in h.attempted then Waiting(StageIn(q, x))
    else Unsent
  }

  /** The refinement: unless doubled, the operation's state, packets and standing are those of the sender's chain. */
  predicate Tracks(s: State, q: seq<Entry>, x: nat) {
    x < |s.cells| && x < |s.hist.requests| && s.hist.requests[x].Pub? && x !in s.hist.doubled ==>
      s.cells[x].Pub? &&
      RunChain(s.hist.requests[x].msg, NetsOf(s.hist.trials, x)) == Seen(s, x, StatusIn(s.hist, q, x))
  }

  lemma RunChainSnoc(m: Message, nets: seq<Net>, net: Net)
    ensures RunChain(m, nets + [net]) == Extend(RunChain(m, nets), net)
  {
    assert (nets + [net])[..|nets|] == nets;
  }

  lemma SameStatus(s: State, op: nat, first: bool, net: Net, t: Try, s': State, q: seq<Entry>, q': seq<Entry>, x: nat)
    requires op < |s.cells| && Attempted(s, op, first, net, t, s') && x != op
    requires StageIn(q', x) == StageIn(q, x)
    ensures StatusIn(s'.hist, q', x) == StatusIn(s.hist, q, x)
  {
    assert x in s'.hist.attempted <==> x in s.hist.attempted;
    assert x in s'.hist.acks <==> x in s.hist.acks;
    assert x in s'.hist.ended <==> x in s.hist.ended;
  }

  lemma SameView(s: State, op: nat, first: bool, net: Net, t: Try, s': State, x: nat, status: Status)
    requires op < |s.cells| && Attempted(s, op, first, net, t, s') && x != op
    requires x < |s.cells| && s.cells[x].Pub?
    ensures s'.cells[x].Pub? && Seen(s', x, status) == Seen(s, x, status)
    ensures NetsOf(s'.hist.trials, x) == NetsOf(s.hist.trials, x)
  {
    NoteView(s, op, net, t, x);
    assert WireOf(s.hist.wire, x) + [] == WireOf(s.hist.wire, x);
    assert NetsOf(s.hist.trials, x) + [] == NetsOf(s.hist.trials, x);
  }

  lemma OthersTrack(s: State, op: nat, first: bool, net: Net, t: Try, s': State, q: seq<Entry>, q': seq<Entry>, x: nat)
    requires op < |s.cells| && Attempted(s, op, first, net, t, s') && x != op && Tracks(s, q, x)
    requires StageIn(q', x) == StageIn(q, x)
    ensures Tracks(s', q', x)
  {
    if x < |s.cells| && x < |s.hist.requests| && s.hist.requests[x].Pub? && x !in s.hist.doubled {
      SameStatus(s, op, first, net, t, s', q, q', x);
      SameView(s, op, first, net, t, s', x, StatusIn(s.hist, q, x));
    }
  }

  /** An attempt that starts from where the operation stands takes the chain one step on. */
  lemma OwnTracks(s: State, op: nat, stage: Stage, net: Net, t: Try, s': State, q: seq<Entry>, q': seq<Entry>)
    requires op < |s.cells| && Attempted(s, op, stage == First, net, t, s') && Tracks(s, q, op)
    requires t == TryRequest(s.cells[op], stage, net) && t.result != Crashed
    requires op !in s.hist.doubled && op !in s.hist.acks && op !in s.hist.ended && op in s'.hist.attempted
    requires StatusIn(s.hist, q, op) == if stage == First then Unsent else Waiting(stage)
    requires t.result.Again? ==> StageIn(q', op) == t.result.stage
    ensures Tracks(s', q', op)
  {
    if op < |s.hist.requests| && s.hist.requests[op].Pub? {
      var m, nets := s.hist.requests[op].msg, NetsOf(s.hist.trials, op);
      var c := Seen(s, op, StatusIn(s.hist, q, op));
      NoteView(s, op, net, t, op);
      RunChainSnoc(m, nets, net);
      assert StatusIn(s'.hist, q', op) == StatusOf(t.result);
      assert Extend(c, net) == Seen(s', op, StatusOf(t.result));
    }
  }

  // ---- One attempt ----

  predicate AllTrack(s: State, q: seq<Entry>) {
    (forall i :: 0 <= i < |s.hist.trials| ==> s.hist.trials[i].op < |s.cells|) &&
    forall x: nat | x < |s.cells| :: Tracks(s, q, x)
  }

  /** Unless doubled, the operation is neither acknowledged, nor ended, nor queued. */
  predicate Nowhere(s: State, rest: seq<Entry>, op: nat) {
    op in s.hist.doubled || (Places(s, op) == 0 && Queued(rest, op) == 0)
  }

  lemma NotDone(s: State, op: nat)
    requires Occurrences(s.hist.acks, op) == 0 && Occurrences(s.hist.ended, op) == 0
    ensures op !in s.hist.acks && op !in s.hist.ended
  {
    Occurs(s.hist.acks, op);
    Occurs(s.hist.ended, op);
  }

  /** Where things continue once a first attempt is over. */
  lemma FirstStages(s: State, op: nat, result: Result, rest: seq<Entry>, x: nat)
    ensures var q' := (s.queue + if result.Again? then [Resume(op, result.stage)] else []) + rest;
            (x != op ==> StageIn(q', x) == StageIn(s.queue + rest, x)) &&
            (result.Again? && Queued(s.queue, op) == 0 ==> StageIn(q', op) == result.stage)
  {
    if result.Again? {
      var r := Resume(op, result.stage);
      assert (s.queue + [r]) + rest == s.queue + ([r] + rest);
      StageInAppend(s.queue, [r] + rest, op);
      if x != op {
        StageInWithout(s.queue, r, rest, x);
      }
    } else {
      assert s.queue + [] == s.queue;
    }
  }

  lemma FirstTracksOne(s: State, op: nat, net: Net, t: Try, s': State, q: seq<Entry>, rest: seq<Entry>, x: nat)
    requires op < |s.cells| && Attempted(s, op, true, net, t, s') && Tracks(s, q, x)
    requires t == TryRequest(s.cells[op], First, net) && t.result != Crashed
    requires op !in s.hist.attempted && Nowhere(s, rest, op)
    requires s'.queue == s.queue + if t.result.Again? then [Resume(op, t.result.stage)] else []
    requires x != op ==> StageIn(q, x) == StageIn(s.queue + rest, x)
    ensures Tracks(s', s'.queue + rest, x)
  {
    FirstStages(s, op, t.result, rest, x);
    if x == op {
      if op !in s.hist.doubled {
        NotDone(s, op);
        OwnTracks(s, op, First, net, t, s', q, s'.queue + rest);
      }
    } else {
      OthersTrack(s, op, true, net, t, s', q, s'.queue + rest, x);
    }
  }

  /** A first attempt; `q` is the queue it may still be listed in as a Fresh entry. */
  lemma FirstTracks(s: State, op: nat, net: Net, q: seq<Entry>, rest: seq<Entry>)
    requires op < |s.cells| && AllTrack(s, q) && op !in s.hist.attempted && Nowhere(s, rest, op)
    requires forall x: nat :: x != op ==> StageIn(q, x) == StageIn(s.queue + rest, x)
    ensures var s' := FirstAttempt(s, op, net); !s'.crashed ==> AllTrack(s', s'.queue + rest)
  {
    var s' := FirstAttempt(s, op, net);
    var t := TryRequest(s.cells[op], First, net);
    if !s'.crashed {
      forall x: nat | x < |s.cells| ensures Tracks(s', s'.queue + rest, x) {
        assert Tracks(s, q, x);
        FirstTracksOne(s, op, net, t, s', q, rest, x);
      }
    }
  }

  lemma ResumeTracks(s: State, e: Entry, net: Net, rest: seq<Entry>)
    requires e.Resume? && e.op < |s.cells| && AllTrack(s, s.queue + ([e] + rest)) && EntryOk(s, e)
    requires Nowhere(s, rest, e.op) && !Breaks(s, e, net)
    ensures var s' := RunResume(s, e.op, e.stage, net); !s'.crashed ==> AllTrack(s', s'.queue + rest)
  {
    var op, q := e.op, s.queue + ([e] + rest);
    var s' := RunResume(s, op, e.stage, net);
    var t := TryRequest(s.cells[op], e.stage, net);
    if !s'.crashed {
      StageInAppend(s.queue, [e] + rest, op);
      forall x: nat | x < |s.cells| ensures Tracks(s', s'.queue + rest, x) {
        assert Tracks(s, q, x);
        if x == op {
          if op !in s.hist.doubled {
            NotDone(s, op);
            OwnTracks(s, op, e.stage, net, t, s', q, s'.queue + rest);
          }
        } else {
          StageInWithout(s.queue, e, rest, x);
          OthersTrack(s, op, false, net, t, s', q, s'.queue + rest, x);
        }
      }
    }
  }

  lemma EntryTracks(s: State, e: Entry, net: Net, rest: seq<Entry>)
    requires e.op < |s.cells| && AllTrack(s, s.queue + ([e] + rest)) && EntryOk(s, e)
    requires Nowhere(s, rest, e.op) && !Breaks(s, e, net) && (e.Fresh? ==> e.op !in s.hist.attempted)
    ensures var s' := RunEntry(s, e, net); !s'.crashed ==> AllTrack(s', s'.queue + rest)
  {
    if e.Resume? {
      ResumeTracks(s, e, net, rest);
    } else {
      forall x: nat | x != e.op ensures StageIn(s.queue + ([e] + rest), x) == StageIn(s.queue + rest, x) {
        StageInWithout(s.queue, e, rest, x);
      }
      FirstTracks(s, e.op, net, s.queue + ([e] + rest), rest);
    }
  }

  // ---- Tasks ----

  /** Tracking depends only on memory and on what the history says of operations. */
  lemma SameTracks(s: State, s': State, q: seq<Entry>)
    requires s.hist.doubled <= s'.hist.doubled
    requires AllTrack(s, q) && s'.cells == s.cells && s'.hist.requests == s.hist.requests
    requires s'.hist.wire == s.hist.wire && s'.hist.trials == s.hist.trials
    requires s'.hist.attempted == s.hist.attempted && s'.hist.acks == s.hist.acks && s'.hist.ended == s.hist.ended
    ensures AllTrack(s', q)
  {
    forall x: nat | x < |s.cells| ensures Tracks(s', q, x) { assert Tracks(s, q, x); }
  }

  lemma IssueTracks(s: State, op: nat, net: Net)
    requires op < |s.cells| && AllTrack(s, s.queue) && op !in s.hist.attempted && Nowhere(s, [], op) && s.queue == []
    ensures var s' := FirstAttempt(Issue(s, op), op, net); !s'.crashed ==> AllTrack(s', s'.queue)
  {
    var i := Issue(s, op);
    var s' := FirstAttempt(i, op, net);
    SameTracks(s, i, s.queue);
    assert i.queue + [] == s.queue && s'.queue + [] == s'.queue;
    assert Places(i, op) == Places(s, op);
    FirstTracks(i, op, net, s.queue, []);
  }

  lemma QueueTracks(s: State, op: nat, s': State)
    requires AllTrack(s, s.queue) && s' == Issue(s, op).(queue := s.queue + [Fresh(op)])
    ensures AllTrack(s', s'.queue)
  {
    SameTracks(s, s', s.queue);
    forall x: nat | x < |s.cells| ensures Tracks(s', s'.queue, x) {
      assert Tracks(s', s.queue, x);
      FreshAdds(s.queue, op, x);
    }
  }

  lemma SubmitTracks(s: State, op: nat, net: Net)
    requires op < |s.cells| && AllTrack(s, s.queue) && op !in s.hist.attempted && Nowhere(s, [], op)
    ensures var s' := Submit(s, op, net); !s'.crashed ==> AllTrack(s', s'.queue)
  {
    if Refused(s, op, net) {
      SameTracks(s, Submit(s, op, net), s.queue);
    } else if s.queue == [] {
      IssueTracks(s, op, net);
    } else {
      QueueTracks(s, op, Submit(s, op, net));
    }
  }

  /** A Fresh entry at the end does not change where anything continues. */
  lemma {:induction false} FreshAdds(q: seq<Entry>, op: nat, x: nat)
    ensures StageIn(q + [Fresh(op)], x) == StageIn(q, x)
  {
    if q == [] {
      assert q + [Fresh(op)] == [Fresh(op)] && [Fresh(op)][1..] == [];
    } else {
      assert (q + [Fresh(op)])[1..] == q[1..] + [Fresh(op)];
      FreshAdds(q[1..], op, x);
    }
  }

  lemma NewTracks(s: State, r: Request, q: seq<Entry>)
    requires AllTrack(s, q) && Known(s) && Nowhere(s, [], |s.cells|)
    ensures Tracks(Allocate(s, r), q, |s.cells|)
  {
    if |s.cells| !in s.hist.doubled {
      NotDone(s, |s.cells|);
    }
    NoTrials(s.hist.trials, |s.cells|);
    Silent(s.hist.wire, |s.cells|);
  }

  lemma AllocateTracks(s: State, r: Request, q: seq<Entry>)
    requires AllTrack(s, q) && Known(s) && Nowhere(s, [], |s.cells|)
    ensures AllTrack(Allocate(s, r), q) && |s.cells| !in s.hist.attempted
  {
    var a := Allocate(s, r);
    forall x: nat | x < |a.cells| ensures Tracks(a, q, x) {
      if x < |s.cells| {
        assert Tracks(s, q, x);
      } else {
        NewTracks(s, r, q);
      }
    }
  }

  /** Everything the refinement needs, between tasks. */
  ghost predicate Refines(s: State) {
    Ordered(s) && Identified(s, s.queue) && AllTrack(s, s.queue) && Balanced(s)
  }

  lemma NotIssuedNowhere(s: State, x: nat)
    requires Refines(s) && !s.crashed && x !in s.hist.issued
    ensures Nowhere(s, [], x)
  {
    InPlaces(s, x);
    Occurs(s.hist.doubled, x);
  }

  lemma NewNotIssued(s: State)
    requires Ordered(s) && !s.crashed
    ensures |s.cells| !in s.hist.issued
  {
  }

  lemma OneRefines(s: State, sub: Subscription, net: Net)
    requires Refines(s) && !s.crashed
    ensures var s' := ResubscribeOne(s, sub, net); !s'.crashed ==> Refines(s')
  {
    var op, a := |s.cells|, Allocate(s, Sub([sub]));
    var s' := ResubscribeOne(s, sub, net);
    OneOrdered(s, sub, net);
    AllocateIdentified(s, Sub([sub]), s.queue);
    SubmitIdentified(a, op, net);
    NewNotIssued(s);
    NotIssuedNowhere(s, op);
    AllocateTracks(s, Sub([sub]), s.queue);
    assert Places(a, op) == Places(s, op);
    SubmitTracks(a, op, net);
    if !s'.crashed {
      forall x: nat ensures Surplus(s', x) == Surplus(s, x) {
        OneSurplus(s, sub, net, x);
      }
      SameBalanced(s, s');
    }
  }

  lemma ResubscribeRefines(s: State, saved: seq<Subscription>, nets: seq<Net>)
    requires Refines(s)
    ensures var s' := ResubscribeFrom(s, saved, nets, 0); !s'.crashed ==> Refines(s')
  {
    var P := (s1: State) => s1.crashed || Refines(s1);
    forall s1: State, sub: Subscription, net: Net | P(s1) && !s1.crashed
      ensures P(ResubscribeOne(s1, sub, net))
    {
      OneRefines(s1, sub, net);
    }
    ResubscribeKeeps(P, s, saved, nets, 0);
  }

  /** The refinement inside a pass, before its i-th entry. */
  ghost predicate PassRefines(s: State, saved: seq<Entry>, i: nat)
    requires i <= |saved|
  {
    InMemory(saved, s) && Identified(s, s.queue + saved) && Untried(s, saved[i..]) &&
    AllTrack(s, s.queue + saved[i..]) &&
    forall x: nat :: x in s.hist.doubled || Places(s, x) + Queued(saved[i..], x) <= 1
  }

  lemma PassTracksEntry(s: State, saved: seq<Entry>, nets: seq<Net>, i: nat)
    requires i < |saved| && !s.crashed && PassRefines(s, saved, i) && !Breaks(s, saved[i], NetAt(nets, i))
    ensures var s' := RunEntry(s, saved[i], NetAt(nets, i)); !s'.crashed ==> PassRefines(s', saved, i + 1)
  {
    var e, net, rest := saved[i], NetAt(nets, i), saved[i + 1..];
    var s' := RunEntry(s, e, net);
    PassEntry(s, saved, nets, i);
    assert saved[i..] == [e] + rest;
    forall x: nat ensures Queued(saved[i..], x) == Queued(rest, x) + if x == e.op then 1 else 0 {
      QueueAppend([e], rest, x);
      QueueSnoc([], e, x);
      assert [] + [e] == [e];
    }
    assert e.op in s.hist.doubled || Places(s, e.op) + Queued(saved[i..], e.op) <= 1;
    UntriedHead(s, e, rest);
    assert EntryOk(s, (s.queue + saved)[|s.queue| + i]);
    EntryTracks(s, e, net, rest);
    if !s'.crashed {
      forall x: nat ensures x in s'.hist.doubled || Places(s', x) + Queued(rest, x) <= 1 {
        assert x in s.hist.doubled || Places(s, x) + Queued(saved[i..], x) <= 1;
        EntryPlaces(s, e, net, x);
      }
    }
  }

  /** Entries of other operations do not matter, however many. */
  lemma {:induction false} StageInSkip(a: seq<Entry>, mid: seq<Entry>, b: seq<Entry>, x: nat)
    requires forall i :: 0 <= i < |mid| ==> mid[i].op != x
    ensures StageIn(a + (mid + b), x) == StageIn(a + b, x)
  {
    if mid == [] {
      assert mid + b == b;
    } else {
      StageInSkip(a, mid[1..], b, x);
      assert mid + b == [mid[0]] + (mid[1..] + b);
      StageInWithout(a, mid[0], mid[1..] + b, x);
    }
  }

  /** The queue after a break, seen by an operation that had not run in the pass. */
  lemma BreakStage(q: seq<Entry>, c: Entry, saved: seq<Entry>, i: nat, x: nat)
    requires i < |saved| && c.op == saved[i].op && x !in OpsOf(saved[..i + 1])
    ensures StageIn(q + [c] + saved, x) == StageIn(q + saved[i..], x)
  {
    var ran := saved[..i + 1];
    forall j | 0 <= j <= i ensures saved[j].op != x {
      assert OpsOf(ran)[j] == saved[j].op;
    }
    assert q + [c] + saved == q + (([c] + ran) + saved[i + 1..]);
    StageInSkip(q, [c] + ran, saved[i + 1..], x);
    assert saved[i..] == [saved[i]] + saved[i + 1..];
    StageInWithout(q, saved[i], saved[i + 1..], x);
  }

  lemma BreakTracks(s: State, saved: seq<Entry>, nets: seq<Net>, i: nat)
    requires i < |saved| && InMemory(saved, s) && !s.crashed && Breaks(s, saved[i], NetAt(nets, i))
    requires AllTrack(s, s.queue + saved[i..])
    ensures var s' := RetryFrom(s, saved, nets, i); AllTrack(s', s'.queue)
  {
    var e, net, s' := saved[i], NetAt(nets, i), RetryFrom(s, saved, nets, i);
    var t, s1 := TryRequest(s.cells[e.op], e.stage, net), RunEntry(s, e, net);
    forall x: nat | x < |s.cells| ensures Tracks(s', s'.queue, x) {
      assert Tracks(s, s.queue + saved[i..], x);
      if x !in s'.hist.doubled {
        assert x !in OpsOf(saved[..i + 1]) && OpsOf(saved[..i + 1])[i] == e.op;
        BreakStage(s.queue, Resume(e.op, t.result.stage), saved, i, x);
        OthersTrack(s, e.op, false, net, t, s1, s.queue + saved[i..], s'.queue, x);
      }
    }
  }

  lemma {:induction false} PassTracks(s: State, saved: seq<Entry>, nets: seq<Net>, i: nat)
    requires i <= |saved| && InMemory(saved, s) && (!s.crashed ==> PassRefines(s, saved, i))
    ensures var s' := RetryFrom(s, saved, nets, i); !s'.crashed ==> AllTrack(s', s'.queue)
    decreases |saved| - i
  {
    if s.crashed {
    } else if i == |saved| {
      assert s.queue + saved[i..] == s.queue;
    } else if Breaks(s, saved[i], NetAt(nets, i)) {
      BreakTracks(s, saved, nets, i);
    } else {
      PassTracksEntry(s, saved, nets, i);
      PassTracks(RunEntry(s, saved[i], NetAt(nets, i)), saved, nets, i + 1);
    }
  }

  lemma PassStart(s: State)
    requires Refines(s) && !s.crashed
    ensures PassRefines(s.(queue := []), s.queue, 0)
  {
    var s0 := s.(queue := []);
    assert s0.queue + s.queue == s.queue && s.queue[0..] == s.queue;
    SameIdentified(s, s0, s.queue);
    SameTracks(s, s0, s.queue);
    var all := s.hist.issued + TaskOps(s.tasks);
    assert forall i :: 0 <= i < |s.hist.issued| ==> all[i] == s.hist.issued[i];
    forall x: nat ensures x in s.hist.doubled || Places(s0, x) + Queued(s.queue, x) <= 1 {
      InPlaces(s, x);
      Occurs(s.hist.doubled, x);
    }
  }

  lemma PassAllTrack(s: State, nets: seq<Net>)
    requires Refines(s) && !s.crashed
    ensures var s' := RetryFrom(s.(queue := []), s.queue, nets, 0); !s'.crashed ==> AllTrack(s', s'.queue)
  {
    PassStart(s);
    PassTracks(s.(queue := []), s.queue, nets, 0);
  }

  // ---- Every step, every run ----

  lemma TaskTracks(s: State, t: Task, nets: seq<Net>)
    requires Refines(s) && !s.crashed
    requires t.Do? ==> t.op < |s.cells| && t.op !in s.hist.issued
    ensures var s' := Perform(s, t, nets); !s'.crashed ==> AllTrack(s', s'.queue)
  {
    match t
    case Do(op) =>
      NotIssuedNowhere(s, op);
      SubmitTracks(s, op, NetAt(nets, 0));
    case Resubscribe =>
      var s2 := Cleared(s);
      SameTracks(s, s2, s.queue);
      SameIdentified(s, s2, s.queue);
      QuietBalanced(s, s2);
      ResubscribeRefines(s2, s.established, nets);
    case Retry => PassAllTrack(s, nets);
    case Disconnect =>
  }

  lemma QuietRefines(s: State, s': State)
    requires Refines(s) && Ordered(s') && s'.queue == s.queue && s'.cells == s.cells
    requires s'.hist == s.hist.(run := s'.hist.run, accepted := s'.hist.accepted)
    ensures Refines(s')
  {
    SameIdentified(s, s', s.queue);
    SameTracks(s, s', s.queue);
    QuietBalanced(s, s');
  }

  lemma TurnTracks(s: State, nets: seq<Net>)
    requires !s.crashed && Refines(s) && s.tasks != []
    ensures var s' := Turn(s, nets); !s'.crashed ==> AllTrack(s', s'.queue)
  {
    PoppedOrdered(s);
    QuietRefines(s, Popped(s));
    if s.tasks[0].Do? {
      NotYetIssued(s.hist.issued, s.tasks[0].op, TaskOps(s.tasks[1..]));
    }
    TaskTracks(Popped(s), s.tasks[0], nets);
    var p := Perform(Popped(s), s.tasks[0], nets);
    if !p.crashed {
      SameTracks(p, Turn(s, nets), p.queue);
    }
  }

  lemma StepTracks(s: State, e: Event)
    requires !s.crashed && Refines(s)
    ensures var s' := Step(s, e); !s'.crashed ==> AllTrack(s', s'.queue)
  {
    if e.LoopTurn? {
      if s.tasks != [] {
        TurnTracks(s, e.nets);
      }
    } else if e.Call? {
      NewNotIssued(s);
      NotIssuedNowhere(s, |s.cells|);
      AllocateTracks(s, e.request, s.queue);
      if Step(s, e).tasks != s.tasks {
        SameTracks(Allocate(s, e.request), Step(s, e), s.queue);
      }
    } else {
      SameTracks(s, Step(s, e), s.queue);
    }
  }

  lemma {:induction false} AlwaysTracks(events: seq<Event>)
    ensures var s := After(events); !s.crashed ==> AllTrack(s, s.queue)
  {
    if events != [] {
      var s, e := After(events[..|events| - 1]), events[|events| - 1];
      AlwaysTracks(events[..|events| - 1]);
      if !s.crashed {
        AlwaysBalanced(events[..|events| - 1]);
        AlwaysIdentified(events[..|events| - 1]);
        StepTracks(s, e);
      }
    }
  }

  /**
   Refinement: in every run, the packets and the standing of each message that no broken pass
   had run are those of the sender's chain under the environments of its attempts.
   */
  lemma EngineRefinesChain(events: seq<Event>, x: nat)
    requires var s := After(events);
             !s.crashed && x < |s.hist.requests| && s.hist.requests[x].Pub? && x !in s.hist.doubled
    ensures var s := After(events);
            s.cells[x].Pub? &&
            RunChain(s.hist.requests[x].msg, NetsOf(s.hist.trials, x)) == Seen(s, x, StatusIn(s.hist, s.queue, x))
  {
    AlwaysTracks(events);
    AlwaysOrdered(events);
    assert Tracks(After(events), After(events).queue, x);
  }

  /**
   End to end: such a QoS 2 message reaches its subscribers at most once unless a PUBREL write
   failed after the broker had a PUBREL, and exactly once when it is acknowledged.
   */
  lemma DeliveredOnce(how: Method, events: seq<Event>, x: nat)
    requires var s := After(events);
             !s.crashed && x < |s.hist.requests| && s.hist.requests[x].Pub? && x !in s.hist.doubled &&
             s.hist.requests[x].msg.qos == 2 && !Regressed(WireOf(s.hist.wire, x))
    ensures AtBroker(how, WireOf(After(events).hist.wire, x)).releases <= 1
    ensures var s := After(events);
            x in s.hist.acks && Honest(s.hist.requests[x].msg, NetsOf(s.hist.trials, x)) ==>
              AtBroker(how, WireOf(s.hist.wire, x)).releases == 1
  {
    EngineRefinesChain(events, x);
    var s := After(events);
    AtMostOnce(how, s.hist.requests[x].msg, NetsOf(s.hist.trials, x));
    if x in s.hist.acks && Honest(s.hist.requests[x].msg, NetsOf(s.hist.trials, x)) {
      ExactlyOnce(how, s.hist.requests[x].msg, NetsOf(s.hist.trials, x));
    }
  }
}
