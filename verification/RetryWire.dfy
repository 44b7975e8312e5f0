/**
 What the retry engine puts on the wire for one message over a whole run: the
 identity of its retransmissions, whatever fails.
 */
module RetryWire {
  import opened Bytes
  import opened Messages
  import opened Subscriptions
  import opened Sender
  import opened RetryModel
  import opened RetryOrder
  import opened RetryBlocks

  /** The writes of one operation. */
  function WireOf(wire: seq<Wire>, x: nat): seq<Sent> {
    if wire == [] then []
    else
      var last := wire[|wire| - 1];
      WireOf(wire[..|wire| - 1], x) + if last.op == x then [last.sent] else []
  }

  /** The environments of the attempts of one operation. */
  function NetsOf(trials: seq<Trial>, x: nat): seq<Net> {
    if trials == [] then []
    else
      var last := trials[|trials| - 1];
      NetsOf(trials[..|trials| - 1], x) + if last.op == x then [last.net] else []
  }

  lemma {:induction false} WireAppend(a: seq<Wire>, b: seq<Wire>, x: nat)
    ensures WireOf(a + b, x) == WireOf(a, x) + WireOf(b, x)
  {
    if b == [] {
      assert a + b == a;
    } else {
      var b', w := b[..|b| - 1], b[|b| - 1];
      var h := if w.op == x then [w.sent] else [];
      assert (a + b)[..|a + b| - 1] == a + b' && (a + b)[|a + b| - 1] == w;
      WireAppend(a, b', x);
      Associate(WireOf(a, x), WireOf(b', x), h);
    }
  }

  lemma {:induction false} WireOfStamped(op: nat, sent: seq<Sent>, x: nat)
    ensures WireOf(Stamped(op, sent), x) == if x == op then sent else []
  {
    if sent != [] {
      var sent' := sent[..|sent| - 1];
      assert Stamped(op, sent)[..|sent| - 1] == Stamped(op, sent');
      WireOfStamped(op, sent', x);
      assert sent == sent' + [sent[|sent| - 1]];
    }
  }

  lemma NetsSnoc(trials: seq<Trial>, t: Trial, x: nat)
    ensures NetsOf(trials + [t], x) == NetsOf(trials, x) + if t.op == x then [t.net] else []
  {
    assert (trials + [t])[..|trials|] == trials;
  }

  lemma {:induction false} NoTrials(trials: seq<Trial>, x: nat)
    requires forall i :: 0 <= i < |trials| ==> trials[i].op != x
    ensures NetsOf(trials, x) == []
  {
    if trials != [] {
      NoTrials(trials[..|trials| - 1], x);
    }
  }

  /** What an attempt changes in the view of an operation. */
  lemma NoteView(s: State, op: nat, net: Net, t: Try, x: nat)
    requires op < |s.cells|
    ensures var s' := Note(s, op, net, t);
            WireOf(s'.hist.wire, x) == WireOf(s.hist.wire, x) + (if x == op then t.sent else []) &&
            NetsOf(s'.hist.trials, x) == NetsOf(s.hist.trials, x) + (if x == op then [net] else []) &&
            (x < |s.cells| ==> s'.cells[x] == if x == op then t.request else s.cells[x])
  {
    WireAppend(s.hist.wire, Stamped(op, t.sent), x);
    WireOfStamped(op, t.sent, x);
    NetsSnoc(s.hist.trials, Trial(op, t.stage, net), x);
  }

  // ---- Identity of retransmissions, in every run ----

  function Seen(s: State, x: nat, status: Status): Chain
    requires x < |s.cells| && s.cells[x].Pub?
  {
    Chain(s.cells[x].msg, WireOf(s.hist.wire, x), status)
  }

  /** A message's packets are copies of it, and before the first attempt there are none. */
  predicate Held(s: State, x: nat) {
    x < |s.cells| && x < |s.hist.requests| && s.hist.requests[x].Pub? ==>
      s.cells[x].Pub? &&
      IdentityOk(s.hist.requests[x].msg, Seen(s, x, if x in s.hist.attempted then Over(true) else Unsent))
  }

  /** A Resume entry belongs to an operation that has been attempted, and a message's has been written. */
  predicate EntryOk(s: State, e: Entry) {
    e.Resume? ==>
      e.op in s.hist.attempted && e.stage != First &&
      (e.op < |s.hist.requests| && s.hist.requests[e.op].Pub? ==> WireOf(s.hist.wire, e.op) != [])
  }

  /** The wire and the first attempts mention stored operations only. */
  predicate Known(s: State) {
    |s.cells| == |s.hist.requests| &&
    (forall i :: 0 <= i < |s.hist.wire| ==> s.hist.wire[i].op < |s.cells|) &&
    forall i :: 0 <= i < |s.hist.attempted| ==> s.hist.attempted[i] < |s.cells|
  }

  lemma {:induction false} Silent(wire: seq<Wire>, x: nat)
    requires forall i :: 0 <= i < |wire| ==> wire[i].op != x
    ensures WireOf(wire, x) == []
  {
    if wire != [] {
      Silent(wire[..|wire| - 1], x);
    }
  }

  predicate Identified(s: State, q: seq<Entry>) {
    Known(s) &&
    (forall x: nat | x < |s.cells| :: Held(s, x)) && forall i :: 0 <= i < |q| ==> EntryOk(s, q[i])
  }

  /** The state after an attempt, with the first attempt recorded. */
  predicate Attempted(s: State, op: nat, first: bool, net: Net, t: Try, s': State)
    requires op < |s.cells|
  {
    var n := Note(s, op, net, t);
    s'.cells == n.cells && s'.hist.requests == s.hist.requests && s'.hist.wire == n.hist.wire &&
    s'.hist.doubled == s.hist.doubled &&
    s'.hist.trials == n.hist.trials && s'.hist.acks == n.hist.acks && s'.hist.ended == n.hist.ended &&
    s'.hist.attempted == if first then s.hist.attempted + [op] else s.hist.attempted
  }

  lemma OthersHeld(s: State, op: nat, first: bool, net: Net, t: Try, s': State, x: nat)
    requires op < |s.cells| && Attempted(s, op, first, net, t, s') && x != op && Held(s, x)
    ensures Held(s', x)
  {
    NoteView(s, op, net, t, x);
    var status := if x in s.hist.attempted then Over(true) else Unsent;
    assert x in s'.hist.attempted <==> x in s.hist.attempted;
    if x < |s.cells| && x < |s.hist.requests| && s.hist.requests[x].Pub? {
      assert WireOf(s.hist.wire, x) + [] == WireOf(s.hist.wire, x);
      assert Seen(s', x, status) == Seen(s, x, status);
    }
  }

  lemma OwnHeld(s: State, op: nat, stage: Stage, net: Net, t: Try, s': State)
    requires op < |s.cells| == |s.hist.requests| && s.hist.requests[op].Pub? && s.cells[op].Pub?
    requires Attempted(s, op, stage == First, net, t, s')
    requires t == TryRequest(s.cells[op], stage, net)
    requires op in s'.hist.attempted
    requires IdentityOk(s.hist.requests[op].msg, Seen(s, op, if stage == First then Unsent else Waiting(stage)))
    ensures Held(s', op)
    ensures t.result.Again? ==> t.result.stage != First && WireOf(s'.hist.wire, op) != []
  {
    var m := s.hist.requests[op].msg;
    var c := Seen(s, op, if stage == First then Unsent else Waiting(stage));
    ExtendIdentity(m, c, net);
    NoteView(s, op, net, t, op);
    var c' := Extend(c, net);
    assert c' == Seen(s', op, c'.status);
    IdentityWeakens(m, c');
  }

  lemma IdentityWeakens(m: Message, c: Chain)
    requires IdentityOk(m, c)
    ensures IdentityOk(m, c.(status := Over(true)))
  {
  }

  lemma EntriesStay(s: State, op: nat, first: bool, net: Net, t: Try, s': State, q: seq<Entry>)
    requires op < |s.cells| && Attempted(s, op, first, net, t, s') && forall i :: 0 <= i < |q| ==> EntryOk(s, q[i])
    ensures forall i :: 0 <= i < |q| ==> EntryOk(s', q[i])
  {
    forall i | 0 <= i < |q| ensures EntryOk(s', q[i]) {
      assert EntryOk(s, q[i]);
      NoteView(s, op, net, t, q[i].op);
    }
  }

  lemma AttemptHeld(s: State, op: nat, stage: Stage, net: Net, t: Try, s': State)
    requires op < |s.cells| && Identified(s, []) && Attempted(s, op, stage == First, net, t, s')
    requires t == TryRequest(s.cells[op], stage, net)
    requires stage == First <==> op !in s.hist.attempted
    requires stage != First ==> EntryOk(s, Resume(op, stage))
    ensures forall x: nat | x < |s.cells| :: Held(s', x)
    ensures t.result.Again? ==> EntryOk(s', Resume(op, t.result.stage))
  {
    forall x: nat | x < |s.cells| ensures Held(s', x) {
      assert Held(s, x);
      if x != op {
        OthersHeld(s, op, stage == First, net, t, s', x);
      } else if s.hist.requests[op].Pub? {
        OwnHeld(s, op, stage, net, t, s');
      }
    }
    if s.hist.requests[op].Pub? {
      assert Held(s, op);
      OwnHeld(s, op, stage, net, t, s');
    } else {
      AgainStage(s.cells[op], stage, net);
    }
  }

  lemma AttemptIdentified(s: State, op: nat, stage: Stage, net: Net, t: Try, s': State, q: seq<Entry>)
    requires op < |s.cells| && Identified(s, q) && Attempted(s, op, stage == First, net, t, s')
    requires t == TryRequest(s.cells[op], stage, net)
    requires stage == First <==> op !in s.hist.attempted
    requires stage != First ==> EntryOk(s, Resume(op, stage))
    ensures Identified(s', q)
    ensures t.result.Again? ==> EntryOk(s', Resume(op, t.result.stage))
  {
    AttemptHeld(s, op, stage, net, t, s');
    EntriesStay(s, op, stage == First, net, t, s', q);
  }

  lemma AgainStage(r: Request, stage: Stage, net: Net)
    ensures TryRequest(r, stage, net).result.Again? ==> TryRequest(r, stage, net).result.stage != First
  {
  }

  lemma FirstIdentified(s: State, op: nat, net: Net, rest: seq<Entry>)
    requires op < |s.cells| && Identified(s, s.queue + rest) && op !in s.hist.attempted
    ensures var s' := FirstAttempt(s, op, net); !s'.crashed ==> Identified(s', s'.queue + rest)
  {
    var s' := FirstAttempt(s, op, net);
    var t := TryRequest(s.cells[op], First, net);
    if !s'.crashed {
      AttemptIdentified(s, op, First, net, t, s', s.queue + rest);
      Regroup(s', s.queue, if t.result.Again? then [Resume(op, t.result.stage)] else [], rest);
    }
  }

  /** A queue with good entries added in the middle. */
  lemma Regroup(s: State, a: seq<Entry>, b: seq<Entry>, c: seq<Entry>)
    requires Identified(s, a + c) && forall i :: 0 <= i < |b| ==> EntryOk(s, b[i])
    ensures Identified(s, (a + b) + c)
  {
    var q, q' := a + c, (a + b) + c;
    forall i | 0 <= i < |q'| ensures EntryOk(s, q'[i]) {
      if i < |a| {
        assert q'[i] == q[i];
      } else if i >= |a| + |b| {
        assert q'[i] == q[i - |b|];
      } else {
        assert q'[i] == b[i - |a|];
      }
    }
  }

  lemma Regroup2(s: State, a: seq<Entry>, b: seq<Entry>)
    requires Identified(s, a) && forall i :: 0 <= i < |b| ==> EntryOk(s, b[i])
    ensures Identified(s, a + b)
  {
    Regroup(s, a, b, []);
    assert a + [] == a && (a + b) + [] == a + b;
  }

  lemma SubmitIdentified(s: State, op: nat, net: Net)
    requires op < |s.cells| && Identified(s, s.queue) && op !in s.hist.attempted
    ensures var s' := Submit(s, op, net); !s'.crashed ==> Identified(s', s'.queue)
  {
    var s', i := Submit(s, op, net), Issue(s, op);
    SameIdentified(s, i, s.queue);
    if Refused(s, op, net) {
      SameIdentified(s, s', s.queue);
    } else if s.queue == [] {
      assert i.queue + [] == i.queue;
      FirstIdentified(i, op, net, []);
      assert s'.queue + [] == s'.queue;
    } else {
      SameIdentified(s, s', s.queue);
      Regroup2(s', s.queue, [Fresh(op)]);
    }
  }

  /** Identification depends only on memory, requests, wire and first attempts. */
  lemma SameIdentified(s: State, s': State, q: seq<Entry>)
    requires Identified(s, q) && s'.cells == s.cells && s'.hist.requests == s.hist.requests
    requires s'.hist.wire == s.hist.wire && s'.hist.attempted == s.hist.attempted
    ensures Identified(s', q)
  {
    forall x: nat | x < |s.cells| ensures Held(s', x) { assert Held(s, x); }
    forall i | 0 <= i < |q| ensures EntryOk(s', q[i]) { assert EntryOk(s, q[i]); }
  }

  /** New memory is still unsent. */
  lemma AllocateIdentified(s: State, r: Request, q: seq<Entry>)
    requires Identified(s, q)
    ensures Identified(Allocate(s, r), q)
    ensures |s.cells| !in s.hist.attempted
  {
    var a := Allocate(s, r);
    Silent(s.hist.wire, |s.cells|);
    forall x: nat | x < |a.cells| ensures Held(a, x) {
      if x < |s.cells| {
        assert Held(s, x);
      }
    }
    forall i | 0 <= i < |q| ensures EntryOk(a, q[i]) {
      assert EntryOk(s, q[i]);
    }
  }

  lemma OneIdentified(s: State, sub: Subscription, net: Net)
    requires Identified(s, s.queue)
    ensures var s' := ResubscribeOne(s, sub, net); !s'.crashed ==> Identified(s', s'.queue)
  {
    AllocateIdentified(s, Sub([sub]), s.queue);
    SubmitIdentified(Allocate(s, Sub([sub])), |s.cells|, net);
  }

  lemma ResubscribeIdentified(s: State, saved: seq<Subscription>, nets: seq<Net>)
    requires Identified(s, s.queue)
    ensures var s' := ResubscribeFrom(s, saved, nets, 0); !s'.crashed ==> Identified(s', s'.queue)
  {
    var P := (s1: State) => s1.crashed || Identified(s1, s1.queue);
    forall s1: State, sub: Subscription, net: Net | P(s1) && !s1.crashed
      ensures P(ResubscribeOne(s1, sub, net))
    {
      OneIdentified(s1, sub, net);
    }
    ResubscribeKeeps(P, s, saved, nets, 0);
  }

  // ---- A Retry pass ----

  /** The operations still to be attempted in a pass are not among those attempted. */
  predicate Untried(s: State, rest: seq<Entry>) {
    NoDuplicates(s.hist.attempted + FreshOps(rest))
  }

  lemma UntriedHead(s: State, e: Entry, rest: seq<Entry>)
    requires Untried(s, [e] + rest)
    ensures e.Fresh? ==> e.op !in s.hist.attempted &&
                         NoDuplicates((s.hist.attempted + [e.op]) + FreshOps(rest))
    ensures e.Resume? ==> NoDuplicates(s.hist.attempted + FreshOps(rest))
  {
    assert ([e] + rest)[1..] == rest;
    var all := s.hist.attempted + FreshOps([e] + rest);
    if e.Fresh? {
      assert all == (s.hist.attempted + [e.op]) + FreshOps(rest);
      NotYetIssued(s.hist.attempted, e.op, FreshOps(rest));
    } else {
      assert FreshOps([e] + rest) == FreshOps(rest);
    }
  }

  lemma BreakIdentified(s: State, saved: seq<Entry>, nets: seq<Net>, i: nat)
    requires i < |saved| && InMemory(saved, s) && !s.crashed && Breaks(s, saved[i], NetAt(nets, i))
    requires Identified(s, s.queue + saved)
    ensures var s' := RetryFrom(s, saved, nets, i); !s'.crashed ==> Identified(s', s'.queue)
  {
    var e, net := saved[i], NetAt(nets, i);
    var t := TryRequest(s.cells[e.op], e.stage, net);
    var r := RunEntry(s, e, net);
    var q := s.queue + saved;
    assert EntryOk(s, q[|s.queue| + i]);
    AttemptIdentified(s, e.op, e.stage, net, t, r, q);
    var s' := RetryFrom(s, saved, nets, i);
    SameIdentified(r, s', q);
    Regroup(s', s.queue, [Resume(e.op, t.result.stage)], saved);
  }

  lemma {:induction false} PassIdentified(s: State, saved: seq<Entry>, nets: seq<Net>, i: nat)
    requires i <= |saved| && InMemory(saved, s)
    requires !s.crashed ==> Identified(s, s.queue + saved) && Untried(s, saved[i..])
    ensures var s' := RetryFrom(s, saved, nets, i); !s'.crashed ==> Identified(s', s'.queue)
    decreases |saved| - i
  {
    if s.crashed {
    } else if i == |saved| {
      Trim(s, s.queue, saved);
    } else if Breaks(s, saved[i], NetAt(nets, i)) {
      BreakIdentified(s, saved, nets, i);
    } else {
      var e, net := saved[i], NetAt(nets, i);
      var s1 := RunEntry(s, e, net);
      PassEntry(s, saved, nets, i);
      PassIdentified(s1, saved, nets, i + 1);
    }
  }

  lemma Trim(s: State, a: seq<Entry>, b: seq<Entry>)
    requires Identified(s, a + b)
    ensures Identified(s, a)
  {
    forall i | 0 <= i < |a| ensures EntryOk(s, a[i]) { assert EntryOk(s, (a + b)[i]); }
  }

  /** Entries that have run stay good: they may run again after a break. */
  lemma PassEntry(s: State, saved: seq<Entry>, nets: seq<Net>, i: nat)
    requires i < |saved| && InMemory(saved, s) && !s.crashed
    requires Identified(s, s.queue + saved) && Untried(s, saved[i..])
    ensures var s' := RunEntry(s, saved[i], NetAt(nets, i));
            !s'.crashed ==> Identified(s', s'.queue + saved) && Untried(s', saved[i + 1..])
  {
    var e, net := saved[i], NetAt(nets, i);
    assert saved[i..] == [e] + saved[i + 1..];
    UntriedHead(s, e, saved[i + 1..]);
    var q := s.queue + saved;
    assert EntryOk(s, q[|s.queue| + i]);
    var s' := RunEntry(s, e, net);
    if e.Fresh? {
      FirstIdentified(s, e.op, net, saved);
    } else if !s'.crashed {
      AttemptIdentified(s, e.op, e.stage, net, TryRequest(s.cells[e.op], e.stage, net), s', q);
    }
  }

  // ---- Every step, every run ----

  lemma RetryIdentified(s: State, nets: seq<Net>)
    requires Ordered(s) && !s.crashed && Identified(s, s.queue)
    ensures var s' := Perform(s, Retry, nets); !s'.crashed ==> Identified(s', s'.queue)
  {
    var s0 := s.(queue := []);
    assert s0.queue + s.queue == s.queue && s.queue[0..] == s.queue;
    SameIdentified(s, s0, s.queue);
    var all := s.hist.issued + TaskOps(s.tasks);
    assert forall i :: 0 <= i < |s.hist.issued| ==> all[i] == s.hist.issued[i];
    PassIdentified(s0, s.queue, nets, 0);
  }

  lemma TaskIdentified(s: State, t: Task, nets: seq<Net>)
    requires Ordered(s) && !s.crashed && Identified(s, s.queue)
    requires t.Do? ==> t.op < |s.cells| && t.op !in s.hist.issued
    ensures var s' := Perform(s, t, nets); !s'.crashed ==> Identified(s', s'.queue)
  {
    match t
    case Do(op) => SubmitIdentified(s, op, NetAt(nets, 0));
    case Resubscribe =>
      var s2 := Cleared(s);
      SameIdentified(s, s2, s.queue);
      ResubscribeIdentified(s2, s.established, nets);
    case Retry => RetryIdentified(s, nets);
    case Disconnect =>
  }

  lemma StepIdentified(s: State, e: Event)
    requires Ordered(s) && (!s.crashed ==> Identified(s, s.queue))
    ensures var s' := Step(s, e); !s'.crashed ==> Identified(s', s'.queue)
  {
    if s.crashed {
    } else if e.LoopTurn? {
      if s.tasks != [] {
        PoppedOrdered(s);
        SameIdentified(s, Popped(s), s.queue);
        if s.tasks[0].Do? {
          NotYetIssued(s.hist.issued, s.tasks[0].op, TaskOps(s.tasks[1..]));
        }
        TaskIdentified(Popped(s), s.tasks[0], e.nets);
        var p := Perform(Popped(s), s.tasks[0], e.nets);
        if !p.crashed {
          SameIdentified(p, Step(s, e), p.queue);
        }
      }
    } else if e.Call? {
      AllocateIdentified(s, e.request, s.queue);
      if Step(s, e).tasks != s.tasks {
        SameIdentified(Allocate(s, e.request), Step(s, e), s.queue);
      }
    } else {
      SameIdentified(s, Step(s, e), s.queue);
    }
  }

  lemma {:induction false} AlwaysIdentified(events: seq<Event>)
    ensures !After(events).crashed ==> Identified(After(events), After(events).queue)
  {
    if events != [] {
      AlwaysOrdered(events[..|events| - 1]);
      AlwaysIdentified(events[..|events| - 1]);
      StepIdentified(After(events[..|events| - 1]), events[|events| - 1]);
    }
  }

  /**
   In every run, with any failures, breaks and reconnections: the packets of a published
   message open with a PUBLISH with DUP 0, every later PUBLISH has DUP 1, each is otherwise
   the message as given, and PUBLISH and PUBREL carry one non-zero packet identifier.
   */
  lemma IdentityInEveryRun(events: seq<Event>, x: nat)
    requires var s := After(events); !s.crashed && x < |s.hist.requests| && s.hist.requests[x].Pub?
    ensures var s := After(events);
            exists id: uint16 :: SameMessage(s.hist.requests[x].msg, id, WireOf(s.hist.wire, x))
  {
    AlwaysIdentified(events);
    var s := After(events);
    assert Held(s, x);
    assert SameMessage(s.hist.requests[x].msg, s.cells[x].msg.id, WireOf(s.hist.wire, x));
  }
}
