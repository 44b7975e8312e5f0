/**
 The established subscriptions under retries: each attempted subscription or
 unsubscription takes effect exactly once and in order, whatever fails.
 */
module RetryEffects {
  import opened Bytes
  import opened Subscriptions
  import opened Sender
  import opened RetryModel
  import opened RetryOrder
  import opened RetryBlocks
  import opened RetryWire

  /** The effect of a sequence of operations, as requested, on a list. */
  function Replay(list: seq<Subscription>, ops: seq<nat>, requests: seq<Request>): Outcome<seq<Subscription>>
    requires forall i :: 0 <= i < |ops| ==> ops[i] < |requests|
  {
    if ops == [] then Ok(list)
    else
      match Replay(list, ops[..|ops| - 1], requests)
      case Ok(list') => Applied(list', requests[ops[|ops| - 1]])
      case Err(e) => Err(e)
      case Panic => Panic
  }

  predicate Below(ops: seq<nat>, n: nat) {
    forall i :: 0 <= i < |ops| ==> ops[i] < n
  }

  lemma ReplaySnoc(list: seq<Subscription>, ops: seq<nat>, op: nat, requests: seq<Request>)
    requires Below(ops, |requests|) && op < |requests|
    ensures Below(ops + [op], |requests|)
    ensures Replay(list, ops, requests).Ok? ==>
              Replay(list, ops + [op], requests) == Applied(Replay(list, ops, requests).value, requests[op])
  {
    assert (ops + [op])[..|ops|] == ops;
  }

  /** Later requests do not matter. */
  lemma {:induction false} ReplayMore(list: seq<Subscription>, ops: seq<nat>, requests: seq<Request>,
                                      more: seq<Request>)
    requires Below(ops, |requests|)
    ensures Below(ops, |requests + more|)
    ensures Replay(list, ops, requests + more) == Replay(list, ops, requests)
  {
    if ops != [] {
      ReplayMore(list, ops[..|ops| - 1], requests, more);
    }
  }

  lemma {:induction false} ReplayAppend(list: seq<Subscription>, a: seq<nat>, b: seq<nat>, requests: seq<Request>)
    requires Below(a, |requests|) && Below(b, |requests|)
    ensures Below(a + b, |requests|)
    ensures Replay(list, a, requests).Ok? ==>
              Replay(list, a + b, requests) == Replay(Replay(list, a, requests).value, b, requests)
  {
    if b == [] {
      assert a + b == a;
    } else {
      var b' := b[..|b| - 1];
      assert (a + b)[..|a + b| - 1] == a + b';
      ReplayAppend(list, a, b', requests);
    }
  }

  /** First attempts made since the last Resubscribe. */
  function Recent(s: State): seq<nat>
    requires s.hist.since <= |s.hist.attempted|
  {
    s.hist.attempted[s.hist.since..]
  }

  /**
   The established list is the effect of the operations first attempted since the last
   Resubscribe, each applied once, as requested, in the order of their first attempts.
   */
  predicate Effective(s: State) {
    |s.cells| == |s.hist.requests| && s.hist.since <= |s.hist.attempted| &&
    Below(s.hist.attempted, |s.cells|) &&
    (forall x: nat | x < |s.cells| && x !in s.hist.attempted :: s.cells[x] == s.hist.requests[x]) &&
    Replay([], Recent(s), s.hist.requests) == Ok(s.established)
  }

  lemma EnterEffective(s: State, op: nat, list: seq<Subscription>, net: Net, t: Try)
    requires op < |s.cells| && Effective(s) && op !in s.hist.attempted
    requires Applied(s.established, s.cells[op]) == Ok(list)
    ensures Effective(Enter(s, op, list, net, t))
  {
    var s' := Enter(s, op, list, net, t);
    assert Recent(s') == Recent(s) + [op];
    ReplaySnoc([], Recent(s), op, s.hist.requests);
    forall x: nat | x < |s'.cells| && x !in s'.hist.attempted ensures s'.cells[x] == s'.hist.requests[x] {
      assert x !in s.hist.attempted && x != op;
    }
  }

  lemma FirstEffective(s: State, op: nat, net: Net)
    requires op < |s.cells| && Effective(s) && op !in s.hist.attempted
    ensures var s' := FirstAttempt(s, op, net); !s'.crashed ==> Effective(s')
  {
    var list := Applied(s.established, s.cells[op]);
    var t := TryRequest(s.cells[op], First, net);
    if list.Ok? && t.result != Crashed {
      EnterEffective(s, op, list.value, net, t);
    }
  }

  lemma SubmitEffective(s: State, op: nat, net: Net)
    requires op < |s.cells| && Effective(s) && op !in s.hist.attempted
    ensures var s' := Submit(s, op, net); !s'.crashed ==> Effective(s')
  {
    if !Refused(s, op, net) && s.queue == [] {
      assert Effective(Issue(s, op));
      FirstEffective(Issue(s, op), op, net);
    }
  }

  lemma AllocateEffective(s: State, r: Request)
    requires Effective(s)
    ensures Effective(Allocate(s, r))
  {
    ReplayMore([], Recent(s), s.hist.requests, [r]);
  }

  lemma OneEffective(s: State, sub: Subscription, net: Net)
    requires Effective(s)
    ensures var s' := ResubscribeOne(s, sub, net); !s'.crashed ==> Effective(s')
  {
    AllocateEffective(s, Sub([sub]));
    SubmitEffective(Allocate(s, Sub([sub])), |s.cells|, net);
  }

  lemma ResubscribeEffective(s: State, saved: seq<Subscription>, nets: seq<Net>)
    requires Effective(s)
    ensures var s' := ResubscribeFrom(s, saved, nets, 0); !s'.crashed ==> Effective(s')
  {
    var P := (s1: State) => s1.crashed || Effective(s1);
    forall s1: State, sub: Subscription, net: Net | P(s1) && !s1.crashed
      ensures P(ResubscribeOne(s1, sub, net))
    {
      OneEffective(s1, sub, net);
    }
    ResubscribeKeeps(P, s, saved, nets, 0);
  }

  lemma ResumeEffective(s: State, op: nat, stage: Stage, net: Net)
    requires op < |s.cells| && Effective(s) && op in s.hist.attempted
    ensures var s' := RunResume(s, op, stage, net); !s'.crashed ==> Effective(s')
  {
  }

  /** What a Retry pass relies on before its i-th entry. */
  predicate PassReady(s: State, saved: seq<Entry>, i: nat)
    requires i <= |saved|
  {
    InMemory(saved, s) && Effective(s) && Identified(s, s.queue + saved) && Untried(s, saved[i..])
  }

  /** Fresh entries are as requested and not attempted, Resume entries are attempted, and the pass can go on. */
  lemma ReadyEntry(s: State, saved: seq<Entry>, nets: seq<Net>, i: nat)
    requires i < |saved| && !s.crashed && PassReady(s, saved, i)
    ensures var e := saved[i];
            if e.Fresh? then e.op !in s.hist.attempted && s.cells[e.op] == s.hist.requests[e.op]
            else e.op in s.hist.attempted && e.stage != First
    ensures var s1 := RunEntry(s, saved[i], NetAt(nets, i)); !s1.crashed ==> PassReady(s1, saved, i + 1)
  {
    var e, net := saved[i], NetAt(nets, i);
    assert EntryOk(s, (s.queue + saved)[|s.queue| + i]);
    assert saved[i..] == [e] + saved[i + 1..];
    UntriedHead(s, e, saved[i + 1..]);
    PassEntry(s, saved, nets, i);
    if e.Fresh? {
      FirstEffective(s, e.op, net);
    } else {
      ResumeEffective(s, e.op, e.stage, net);
    }
  }

  lemma ReadyStart(s: State)
    requires Ordered(s) && !s.crashed && Identified(s, s.queue) && Effective(s)
    ensures PassReady(s.(queue := []), s.queue, 0)
  {
    var s0 := s.(queue := []);
    assert s0.queue + s.queue == s.queue && s.queue[0..] == s.queue;
    SameIdentified(s, s0, s.queue);
    SameEffective(s, s0);
    var all := s.hist.issued + TaskOps(s.tasks);
    assert forall i :: 0 <= i < |s.hist.issued| ==> all[i] == s.hist.issued[i];
  }

  lemma {:induction false} PassEffective(s: State, saved: seq<Entry>, nets: seq<Net>, i: nat)
    requires i <= |saved| && InMemory(saved, s) && (!s.crashed ==> PassReady(s, saved, i))
    ensures var s' := RetryFrom(s, saved, nets, i); !s'.crashed ==> Effective(s')
    decreases |saved| - i
  {
    if !s.crashed && i < |saved| {
      var s1 := RunEntry(s, saved[i], NetAt(nets, i));
      ReadyEntry(s, saved, nets, i);
      if Breaks(s, saved[i], NetAt(nets, i)) {
        SameEffective(s1, RetryFrom(s, saved, nets, i));
      } else {
        PassEffective(s1, saved, nets, i + 1);
      }
    }
  }

  lemma TaskEffective(s: State, t: Task, nets: seq<Net>)
    requires Ordered(s) && !s.crashed && Identified(s, s.queue) && Effective(s)
    requires t.Do? ==> t.op < |s.cells| && t.op !in s.hist.issued
    ensures var s' := Perform(s, t, nets); !s'.crashed ==> Effective(s')
  {
    match t
    case Do(op) => SubmitEffective(s, op, NetAt(nets, 0));
    case Resubscribe =>
      var s2 := Cleared(s);
      assert Recent(s2) == [];
      ResubscribeEffective(s2, s.established, nets);
    case Retry =>
      ReadyStart(s);
      PassEffective(s.(queue := []), s.queue, nets, 0);
    case Disconnect =>
  }

  lemma SameEffective(s: State, s': State)
    requires Effective(s) && s'.cells == s.cells && s'.established == s.established
    requires s'.hist.requests == s.hist.requests && s'.hist.attempted == s.hist.attempted
    requires s'.hist.since == s.hist.since
    ensures Effective(s')
  {
  }

  lemma TurnEffective(s: State, nets: seq<Net>)
    requires Ordered(s) && !s.crashed && Identified(s, s.queue) && Effective(s)
    ensures var s' := Turn(s, nets); !s'.crashed ==> Effective(s')
  {
    if s.tasks != [] {
      PoppedOrdered(s);
      SameIdentified(s, Popped(s), s.queue);
      SameEffective(s, Popped(s));
      if s.tasks[0].Do? {
        NotYetIssued(s.hist.issued, s.tasks[0].op, TaskOps(s.tasks[1..]));
      }
      TaskEffective(Popped(s), s.tasks[0], nets);
      var p := Perform(Popped(s), s.tasks[0], nets);
      if !p.crashed {
        SameEffective(p, Turn(s, nets));
      }
    }
  }

  lemma StepEffective(s: State, e: Event)
    requires Ordered(s) && !s.crashed && Identified(s, s.queue) && Effective(s)
    ensures var s' := Step(s, e); !s'.crashed ==> Effective(s')
  {
    if e.LoopTurn? {
      TurnEffective(s, e.nets);
    } else if e.Call? {
      AllocateEffective(s, e.request);
    }
  }

  lemma {:induction false} AlwaysEffective(events: seq<Event>)
    ensures !After(events).crashed ==> Effective(After(events))
  {
    if events != [] {
      var s := After(events[..|events| - 1]);
      AlwaysEffective(events[..|events| - 1]);
      AlwaysOrdered(events[..|events| - 1]);
      AlwaysIdentified(events[..|events| - 1]);
      if !s.crashed {
        StepEffective(s, events[|events| - 1]);
      }
    }
  }

  /** The invariants of every reachable state that has not panicked, together. */
  predicate Settled(s: State) {
    Ordered(s) && Identified(s, s.queue) && Effective(s)
  }

  lemma AlwaysSettled(events: seq<Event>)
    ensures !After(events).crashed ==> Settled(After(events))
  {
    AlwaysOrdered(events);
    AlwaysIdentified(events);
    AlwaysEffective(events);
  }

  /** The state in which a task starts; its operation, if any, is as requested and not attempted. */
  lemma SettledTask(s: State)
    requires Settled(s) && !s.crashed && s.tasks != []
    ensures Settled(Popped(s))
    ensures var t := s.tasks[0];
            t.Do? ==> t.op < |s.cells| && t.op !in s.hist.issued && t.op !in s.hist.attempted &&
                      s.cells[t.op] == s.hist.requests[t.op]
  {
    PoppedOrdered(s);
    SameIdentified(s, Popped(s), s.queue);
    SameEffective(s, Popped(s));
    if s.tasks[0].Do? {
      NotYetIssued(s.hist.issued, s.tasks[0].op, TaskOps(s.tasks[1..]));
    }
  }

  // ---- The list the caller will have once pending operations have run ----

  lemma {:induction false} FreshOpsBelow(q: seq<Entry>, s: State)
    requires InMemory(q, s)
    ensures Below(FreshOps(q), |s.cells|)
  {
    if q != [] {
      FreshOpsBelow(q[1..], s);
    }
  }

  /** Pending (Fresh) operations applied to the established list. */
  function Prospect(s: State): Outcome<seq<Subscription>>
    requires Linked(s)
  {
    FreshOpsBelow(s.queue, s);
    Replay(s.established, FreshOps(s.queue), s.hist.requests)
  }

  /**
   Exactly once, in order, whatever fails: the prospective list is always the effect of
   the operations issued since the last Resubscribe, so no Retry pass changes it; and it
   is the established list itself whenever no operation is pending.
   */
  lemma EachAppliedOnce(events: seq<Event>)
    requires !After(events).crashed
    ensures var s := After(events);
            s.hist.since <= |s.hist.attempted| && s.hist.attempted <= s.hist.issued &&
            Below(s.hist.issued, |s.hist.requests|) &&
            Replay([], s.hist.attempted[s.hist.since..], s.hist.requests) == Ok(s.established) &&
            Prospect(s) == Replay([], s.hist.issued[s.hist.since..], s.hist.requests)
  {
    AlwaysOrdered(events);
    AlwaysEffective(events);
    ProspectIsReplay(After(events));
  }

  lemma ProspectIsReplay(s: State)
    requires Ordered(s) && !s.crashed && Effective(s)
    ensures Prospect(s) == Replay([], s.hist.issued[s.hist.since..], s.hist.requests)
  {
    FreshOpsBelow(s.queue, s);
    assert s.hist.issued[s.hist.since..] == Recent(s) + FreshOps(s.queue);
    ReplayAppend([], Recent(s), FreshOps(s.queue), s.hist.requests);
  }
}
