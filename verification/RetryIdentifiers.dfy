/**
 Packet identifiers of messages in flight: a new client starts its counter anew while queued
 messages keep their identifiers, and still no two drawn identifiers in the queue are ever
 equal, since nothing is attempted for the first time while an older continuation is waiting.
 */
module RetryIdentifiers {
  import opened Bytes
  import opened Subscriptions
  import opened Sender
  import opened RetryModel
  import opened RetryOrder
  import opened RetryWire
  import opened RetryEffects
  import P = PacketId

  /** A client draws no identifier twice within one task. */
  predicate DistinctNew(nets: seq<Net>) {
    forall a, b :: 0 <= a < b < |nets| ==> nets[a].newId != nets[b].newId
  }

  predicate DrawsDistinct(events: seq<Event>) {
    forall i :: 0 <= i < |events| && events[i].LoopTurn? ==> DistinctNew(events[i].nets)
  }

  /** A continuation of a message. */
  predicate InFlight(s: State, e: Entry) {
    e.Resume? && e.op < |s.cells| && e.op < |s.hist.requests| && s.hist.requests[e.op].Pub? && s.cells[e.op].Pub?
  }

  /** Its identifier was drawn by the client. */
  predicate Drawn(s: State, e: Entry) {
    InFlight(s, e) && s.hist.requests[e.op].msg.id == 0
  }

  /** Continuations of different messages have different identifiers, if these were drawn. */
  predicate DistinctIds(s: State, q: seq<Entry>) {
    forall i, j :: 0 <= i < |q| && 0 <= j < |q| && Drawn(s, q[i]) && Drawn(s, q[j]) && q[i].op != q[j].op ==>
      s.cells[q[i].op].msg.id != s.cells[q[j].op].msg.id
  }

  /** The cells of continuations keep kind and identifier. */
  predicate SameIds(s: State, s': State, q: seq<Entry>) {
    forall i :: 0 <= i < |q| && q[i].Resume? ==>
      (Drawn(s', q[i]) <==> Drawn(s, q[i])) &&
      (Drawn(s, q[i]) ==> s'.cells[q[i].op].msg.id == s.cells[q[i].op].msg.id)
  }

  lemma StillDistinct(s: State, s': State, q: seq<Entry>)
    requires DistinctIds(s, q) && SameIds(s, s', q)
    ensures DistinctIds(s', q)
  {
  }

  /** A message that has been written keeps its identifier. */
  lemma ResumeKeepsId(s: State, q: seq<Entry>, k: nat, net: Net)
    requires k < |q| && Identified(s, q) && Drawn(s, q[k])
    ensures var t := TryRequest(s.cells[q[k].op], q[k].stage, net);
            t.request.Pub? && t.request.msg.id == s.cells[q[k].op].msg.id
  {
    assert EntryOk(s, q[k]) && Held(s, q[k].op);
    assert s.cells[q[k].op].msg.id != 0;
  }

  /** Running a continuation changes no identifier of a continuation. */
  lemma ResumeSameIds(s: State, q: seq<Entry>, k: nat, net: Net)
    requires k < |q| && Identified(s, q) && q[k].Resume? && q[k].op < |s.cells|
    ensures var s' := RunResume(s, q[k].op, q[k].stage, net); SameIds(s, s', q)
  {
    var op, s' := q[k].op, RunResume(s, q[k].op, q[k].stage, net);
    assert Held(s, op);
    if Drawn(s, q[k]) {
      ResumeKeepsId(s, q, k, net);
    }
    forall i | 0 <= i < |q| && q[i].Resume?
      ensures Drawn(s', q[i]) <==> Drawn(s, q[i])
      ensures Drawn(s, q[i]) ==> s'.cells[q[i].op].msg.id == s.cells[q[i].op].msg.id
    {
    }
  }

  /** So does a first attempt: it changes its own cell only, which no continuation refers to. */
  lemma FirstSameIds(s: State, op: nat, net: Net, q: seq<Entry>)
    requires op < |s.cells| && op !in s.hist.attempted && Identified(s, q)
    ensures SameIds(s, FirstAttempt(s, op, net), q)
  {
    var s' := FirstAttempt(s, op, net);
    forall i | 0 <= i < |q| && q[i].Resume?
      ensures Drawn(s', q[i]) <==> Drawn(s, q[i])
      ensures Drawn(s, q[i]) ==> s'.cells[q[i].op].msg.id == s.cells[q[i].op].msg.id
    {
      assert EntryOk(s, q[i]);
      assert q[i].op != op;
    }
  }

  /** A first attempt that is to be continued has given its message the client's new identifier. */
  lemma FirstTakesId(s: State, op: nat, nets: seq<Net>, j: nat)
    requires op < |s.cells| && s.cells[op].Pub? && s.cells[op].msg.id == 0
    ensures var t := TryRequest(s.cells[op], First, NetAt(nets, j));
            t.result.Again? ==> j < |nets| && t.request.Pub? && t.request.msg.id == nets[j].newId
  {
  }

  // ---- A Retry pass ----

  /** Entry e was made by Fresh entry j of the pass, and took its identifier from the j-th environment. */
  predicate Made(s: State, e: Entry, saved: seq<Entry>, nets: seq<Net>, j: nat) {
    j < |saved| && j < |nets| && saved[j] == Fresh(e.op) && (Drawn(s, e) ==> s.cells[e.op].msg.id == nets[j].newId)
  }

  predicate HasMade(s: State, e: Entry, saved: seq<Entry>, nets: seq<Net>, i: nat) {
    exists j: nat :: j < i && Made(s, e, saved, nets, j)
  }

  predicate AllMade(s: State, saved: seq<Entry>, nets: seq<Net>, i: nat) {
    forall k :: 0 <= k < |s.queue| ==> HasMade(s, s.queue[k], saved, nets, i)
  }

  lemma MadeOn(s: State, s': State, e: Entry, saved: seq<Entry>, nets: seq<Net>, i: nat)
    requires HasMade(s, e, saved, nets, i) && SameIds(s, s', [e])
    ensures HasMade(s', e, saved, nets, i + 1)
  {
    var j: nat :| j < i && Made(s, e, saved, nets, j);
    if e.Resume? {
      assert [e][0] == e;
    }
    assert Made(s', e, saved, nets, j);
  }

  lemma SameIdsAt(s: State, s': State, q: seq<Entry>, k: nat)
    requires SameIds(s, s', q) && k < |q|
    ensures SameIds(s, s', [q[k]])
  {
  }

  lemma StillMade(s: State, s': State, saved: seq<Entry>, nets: seq<Net>, i: nat)
    requires AllMade(s, saved, nets, i) && SameIds(s, s', s.queue) && s'.queue == s.queue
    ensures AllMade(s', saved, nets, i + 1)
  {
    forall k | 0 <= k < |s.queue| ensures HasMade(s', s'.queue[k], saved, nets, i + 1) {
      SameIdsAt(s, s', s.queue, k);
      MadeOn(s, s', s.queue[k], saved, nets, i);
    }
  }

  lemma OneMade(s: State, s': State, e: Entry, saved: seq<Entry>, nets: seq<Net>, i: nat)
    requires AllMade(s, saved, nets, i) && SameIds(s, s', s.queue) && s'.queue == s.queue + [e] &&
             Made(s', e, saved, nets, i)
    ensures AllMade(s', saved, nets, i + 1)
  {
    forall k | 0 <= k < |s'.queue| ensures HasMade(s', s'.queue[k], saved, nets, i + 1) {
      if k < |s.queue| {
        SameIdsAt(s, s', s.queue, k);
        MadeOn(s, s', s.queue[k], saved, nets, i);
      }
    }
  }

  /** Different messages were made by different Fresh entries. */
  lemma MadeDistinct(s: State, saved: seq<Entry>, nets: seq<Net>)
    requires AllMade(s, saved, nets, |saved|) && DistinctNew(nets)
    ensures DistinctIds(s, s.queue)
  {
    var q := s.queue;
    forall i, k | 0 <= i < |q| && 0 <= k < |q| && Drawn(s, q[i]) && Drawn(s, q[k]) && q[i].op != q[k].op
      ensures s.cells[q[i].op].msg.id != s.cells[q[k].op].msg.id
    {
      assert HasMade(s, q[i], saved, nets, |saved|) && HasMade(s, q[k], saved, nets, |saved|);
      var a: nat :| a < |saved| && Made(s, q[i], saved, nets, a);
      var b: nat :| b < |saved| && Made(s, q[k], saved, nets, b);
      assert a != b;
    }
  }

  lemma BreakDistinct(s: State, e: Entry, saved: seq<Entry>, i: nat)
    requires DistinctIds(s, saved) && i < |saved| && e.op == saved[i].op && e.Resume? && saved[i].Resume?
    ensures DistinctIds(s, [e] + saved)
  {
    var q := [e] + saved;
    forall a, b | 0 <= a < |q| && 0 <= b < |q| && Drawn(s, q[a]) && Drawn(s, q[b]) && q[a].op != q[b].op
      ensures s.cells[q[a].op].msg.id != s.cells[q[b].op].msg.id
    {
      var a', b' := if a == 0 then i else a - 1, if b == 0 then i else b - 1;
      assert saved[a'].op == q[a].op && saved[b'].op == q[b].op;
      assert Drawn(s, saved[a']) && Drawn(s, saved[b']);
    }
  }

  /** Everything needed inside a pass. */
  predicate PassIds(s: State, saved: seq<Entry>, nets: seq<Net>, i: nat)
    requires i <= |saved|
  {
    PassReady(s, saved, i) && Passing(s, saved, i) &&
    DistinctIds(s, saved) && AllMade(s, saved, nets, i)
  }

  lemma FreshMade(s: State, saved: seq<Entry>, nets: seq<Net>, i: nat)
    requires i < |saved| && !s.crashed && PassIds(s, saved, nets, i) && saved[i].Fresh?
    ensures var s1 := RunEntry(s, saved[i], NetAt(nets, i)); !s1.crashed ==> AllMade(s1, saved, nets, i + 1)
  {
    var op, net := saved[i].op, NetAt(nets, i);
    var s1, t := RunEntry(s, saved[i], net), TryRequest(s.cells[op], First, net);
    ReadyEntry(s, saved, nets, i);
    Trim(s, s.queue, saved);
    FirstSameIds(s, op, net, s.queue);
    if !s1.crashed {
      if t.result.Again? {
        var e := Resume(op, t.result.stage);
        NotConnected(s.cells[op], nets, i);
        if s.cells[op].Pub? && s.cells[op].msg.id == 0 {
          FirstTakesId(s, op, nets, i);
        }
        OneMade(s, s1, e, saved, nets, i);
      } else {
        assert s.queue + [] == s.queue;
        StillMade(s, s1, saved, nets, i);
      }
    }
  }

  /** Past the script the client is not connected, and an attempt is not continued. */
  lemma NotConnected(r: Request, nets: seq<Net>, j: nat)
    ensures TryRequest(r, First, NetAt(nets, j)).result.Again? ==> j < |nets|
    ensures !r.Pub? ==> !TryRequest(r, First, NetAt(nets, j)).request.Pub?
  {
  }

  lemma EntryIds(s: State, saved: seq<Entry>, nets: seq<Net>, i: nat)
    requires i < |saved| && !s.crashed && PassIds(s, saved, nets, i)
    ensures var s1 := RunEntry(s, saved[i], NetAt(nets, i)); !s1.crashed ==> PassIds(s1, saved, nets, i + 1)
    ensures var s1 := RunEntry(s, saved[i], NetAt(nets, i)); !s1.crashed ==> DistinctIds(s1, saved)
  {
    var e, net := saved[i], NetAt(nets, i);
    var s1 := RunEntry(s, e, net);
    ReadyEntry(s, saved, nets, i);
    EntryRan(s, e, net);
    PassStep(s, saved, i, s1);
    TrimFront(s, s.queue, saved);
    if e.Fresh? {
      FirstSameIds(s, e.op, net, saved);
      FreshMade(s, saved, nets, i);
    } else {
      ResumeSameIds(s, saved, i, net);
      QueueSameIds(s, saved, i, net);
      StillMade(s, s1, saved, nets, i);
    }
    StillDistinct(s, s1, saved);
  }

  lemma TrimFront(s: State, a: seq<Entry>, b: seq<Entry>)
    requires Identified(s, a + b)
    ensures Identified(s, b)
  {
    forall i | 0 <= i < |b| ensures EntryOk(s, b[i]) { assert EntryOk(s, (a + b)[|a| + i]); }
  }

  lemma QueueSameIds(s: State, saved: seq<Entry>, i: nat, net: Net)
    requires i < |saved| && PassReady(s, saved, i) && saved[i].Resume?
    ensures SameIds(s, RunResume(s, saved[i].op, saved[i].stage, net), s.queue)
  {
    var all, s' := s.queue + saved, RunResume(s, saved[i].op, saved[i].stage, net);
    assert all[|s.queue| + i] == saved[i];
    ResumeSameIds(s, all, |s.queue| + i, net);
    forall k | 0 <= k < |s.queue| && s.queue[k].Resume?
      ensures Drawn(s', s.queue[k]) <==> Drawn(s, s.queue[k])
      ensures Drawn(s, s.queue[k]) ==> s'.cells[s.queue[k].op].msg.id == s.cells[s.queue[k].op].msg.id
    {
      assert all[k] == s.queue[k];
    }
  }

  lemma {:induction false} PassDistinct(s: State, saved: seq<Entry>, nets: seq<Net>, i: nat)
    requires i <= |saved| && InMemory(saved, s) && (!s.crashed ==> PassIds(s, saved, nets, i))
    requires DistinctNew(nets)
    ensures var s' := RetryFrom(s, saved, nets, i); !s'.crashed ==> DistinctIds(s', s'.queue)
    decreases |saved| - i
  {
    if s.crashed {
    } else if i == |saved| {
      MadeDistinct(s, saved, nets);
    } else {
      var s1 := RunEntry(s, saved[i], NetAt(nets, i));
      EntryIds(s, saved, nets, i);
      if Breaks(s, saved[i], NetAt(nets, i)) {
        BreakQueue(s, saved, nets, i);
      } else {
        PassDistinct(s1, saved, nets, i + 1);
      }
    }
  }

  lemma BreakQueue(s: State, saved: seq<Entry>, nets: seq<Net>, i: nat)
    requires i < |saved| && !s.crashed && PassIds(s, saved, nets, i) && Breaks(s, saved[i], NetAt(nets, i))
    requires DistinctIds(RunEntry(s, saved[i], NetAt(nets, i)), saved)
    ensures var s' := RetryFrom(s, saved, nets, i); DistinctIds(s', s'.queue)
  {
    var s1, s' := RunEntry(s, saved[i], NetAt(nets, i)), RetryFrom(s, saved, nets, i);
    PassBreak(s, saved, nets, i);
    var c := s'.queue[0];
    assert s'.queue == [c] + saved;
    BreakDistinct(s1, c, saved, i);
    StillDistinct(s1, s', [c] + saved);
  }

  // ---- Tasks, steps and runs ----

  lemma FreshDistinct(s: State, q: seq<Entry>, op: nat)
    requires DistinctIds(s, q)
    ensures DistinctIds(s, q + [Fresh(op)])
  {
    var q' := q + [Fresh(op)];
    forall i, j | 0 <= i < |q'| && 0 <= j < |q'| && Drawn(s, q'[i]) && Drawn(s, q'[j]) && q'[i].op != q'[j].op
      ensures s.cells[q'[i].op].msg.id != s.cells[q'[j].op].msg.id
    {
      assert q'[i] == q[i] && q'[j] == q[j];
    }
  }

  lemma SubmitDistinct(s: State, op: nat, net: Net)
    requires op < |s.cells| && DistinctIds(s, s.queue)
    ensures var s' := Submit(s, op, net); !s'.crashed ==> DistinctIds(s', s'.queue)
  {
    var s' := Submit(s, op, net);
    if Refused(s, op, net) {
      StillDistinct(s, s', s.queue);
    } else if s.queue != [] {
      FreshDistinct(s, s.queue, op);
      StillDistinct(s, s', s'.queue);
    } else if !s'.crashed {
      assert |s'.queue| <= 1;
    }
  }

  lemma AllocateDistinct(s: State, r: Request)
    requires DistinctIds(s, s.queue) && InMemory(s.queue, s) && |s.cells| == |s.hist.requests|
    ensures DistinctIds(Allocate(s, r), s.queue)
  {
    StillDistinct(s, Allocate(s, r), s.queue);
  }

  predicate Numbered(s: State) {
    |s.cells| == |s.hist.requests| && InMemory(s.queue, s) && DistinctIds(s, s.queue)
  }

  lemma OneDistinct(s: State, sub: Subscription, net: Net)
    requires Numbered(s)
    ensures var s' := ResubscribeOne(s, sub, net); !s'.crashed ==> Numbered(s')
  {
    AllocateDistinct(s, Sub([sub]));
    SubmitDistinct(Allocate(s, Sub([sub])), |s.cells|, net);
  }

  lemma ResubscribeDistinct(s: State, saved: seq<Subscription>, nets: seq<Net>)
    requires Numbered(s)
    ensures var s' := ResubscribeFrom(s, saved, nets, 0); !s'.crashed ==> Numbered(s')
  {
    var P := (s1: State) => s1.crashed || Numbered(s1);
    forall s1: State, sub: Subscription, net: Net | P(s1) && !s1.crashed
      ensures P(ResubscribeOne(s1, sub, net))
    {
      OneDistinct(s1, sub, net);
    }
    ResubscribeKeeps(P, s, saved, nets, 0);
  }

  lemma RetryDistinct(s: State, nets: seq<Net>)
    requires Settled(s) && !s.crashed && Numbered(s)
    requires DistinctNew(nets)
    ensures var s' := Perform(s, Retry, nets); !s'.crashed ==> Numbered(s')
  {
    var s0 := s.(queue := []);
    ReadyStart(s);
    StartPass(s);
    StillDistinct(s, s0, s.queue);
    PassDistinct(s0, s.queue, nets, 0);
  }

  lemma TaskDistinct(s: State, t: Task, nets: seq<Net>)
    requires Settled(s) && !s.crashed && Numbered(s) && (t.Do? ==> t.op < |s.cells|)
    requires DistinctNew(nets)
    ensures var s' := Perform(s, t, nets); !s'.crashed ==> Numbered(s')
  {
    match t
    case Do(op) => SubmitDistinct(s, op, NetAt(nets, 0));
    case Resubscribe =>
      var s2 := Cleared(s);
      StillDistinct(s, s2, s.queue);
      ResubscribeDistinct(s2, s.established, nets);
    case Retry => RetryDistinct(s, nets);
    case Disconnect =>
  }

  lemma TurnDistinct(s: State, nets: seq<Net>)
    requires Settled(s) && !s.crashed && Numbered(s) && DistinctNew(nets) && s.tasks != []
    ensures !Turn(s, nets).crashed ==> Numbered(Turn(s, nets))
  {
    SettledTask(s);
    StillDistinct(s, Popped(s), s.queue);
    TaskDistinct(Popped(s), s.tasks[0], nets);
    var p := Perform(Popped(s), s.tasks[0], nets);
    if !p.crashed {
      StillDistinct(p, Turn(s, nets), p.queue);
    }
  }

  lemma StepDistinct(s: State, e: Event)
    requires Settled(s) && !s.crashed && Numbered(s) && DrawsDistinct([e])
    ensures !Step(s, e).crashed ==> Numbered(Step(s, e))
  {
    assert [e][0] == e;
    if e.LoopTurn? {
      if s.tasks != [] {
        TurnDistinct(s, e.nets);
      }
    } else {
      StillDistinct(s, Step(s, e), s.queue);
    }
  }

  lemma {:induction false} AlwaysNumbered(events: seq<Event>)
    requires DrawsDistinct(events)
    ensures !After(events).crashed ==> Numbered(After(events))
  {
    if events != [] {
      var n := |events| - 1;
      assert [events[n]][0] == events[n];
      AlwaysNumbered(events[..n]);
      AlwaysSettled(events[..n]);
      if !After(events[..n]).crashed {
        StepDistinct(After(events[..n]), events[n]);
      }
    }
  }

  // ---- What it means for two messages ----

  /** Both callers left the identifier to the client, or both chose one and these differ. */
  predicate Compatible(a: uint16, b: uint16) {
    (a == 0) == (b == 0) && (a != 0 ==> a != b)
  }

  /** An identifier that the caller chose is the one in use. */
  lemma ChosenKept(s: State, q: seq<Entry>, k: nat)
    requires k < |q| && Identified(s, q) && InFlight(s, q[k]) && s.hist.requests[q[k].op].msg.id != 0
    ensures s.cells[q[k].op].msg.id == s.hist.requests[q[k].op].msg.id
  {
    assert EntryOk(s, q[k]) && Held(s, q[k].op);
  }

  /**
   If a client draws no identifier twice within one task, then in every reachable state the
   continuations of two messages with compatible requests have different identifiers, whatever
   clients came before, wherever their counters started, and whatever other callers chose.
   */
  lemma InFlightApart(events: seq<Event>, i: nat, j: nat)
    requires DrawsDistinct(events) && !After(events).crashed
    requires var s := After(events);
             i < |s.queue| && j < |s.queue| && s.queue[i].op != s.queue[j].op &&
             InFlight(s, s.queue[i]) && InFlight(s, s.queue[j]) &&
             Compatible(s.hist.requests[s.queue[i].op].msg.id, s.hist.requests[s.queue[j].op].msg.id)
    ensures var s := After(events); s.cells[s.queue[i].op].msg.id != s.cells[s.queue[j].op].msg.id
  {
    var s := After(events);
    AlwaysNumbered(events);
    AlwaysSettled(events);
    if s.hist.requests[s.queue[i].op].msg.id != 0 {
      ChosenKept(s, s.queue, i);
      ChosenKept(s, s.queue, j);
    } else {
      assert Drawn(s, s.queue[i]) && Drawn(s, s.queue[j]);
    }
  }

  // ---- Where the draws come from ----

  /**
   The draws of a task are distinct as long as its calls of the counter fall into a window of
   65535: the hypothesis above holds of every client that makes no more calls than that in a task.
   */
  lemma CounterDrawsDistinct(last: P.uint32, calls: seq<nat>, nets: seq<Net>)
    requires |calls| == |nets| && forall i :: 0 <= i < |nets| ==> nets[i].newId == P.Nth(last, calls[i])
    requires forall i, j :: 0 <= i < j < |calls| ==> calls[i] < calls[j] < calls[i] + 0xFFFF
    ensures DistinctNew(nets)
  {
    forall a, b | 0 <= a < b < |nets| ensures nets[a].newId != nets[b].newId {
      P.WindowDistinct(last, calls[a], calls[b] - calls[a]);
    }
  }
}
