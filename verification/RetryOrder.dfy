/**
 Whole-run order properties of the retry engine: the shape of the retry queue,
 what a Retry pass leaves behind, and the order of first attempts.
 */
module RetryOrder {
  import opened Bytes
  import opened Subscriptions
  import opened Sender
  import opened RetryModel

  /** All Resume entries come before all Fresh entries. */
  predicate ResumeThenFresh(q: seq<Entry>) {
    forall i, j :: 0 <= i < j < |q| && q[i].Fresh? ==> q[j].Fresh?
  }

  predicate AllResume(q: seq<Entry>) {
    forall i :: 0 <= i < |q| ==> q[i].Resume?
  }

  function FreshOps(q: seq<Entry>): seq<nat> {
    if q == [] then [] else (if q[0].Fresh? then [q[0].op] else []) + FreshOps(q[1..])
  }

  function TaskOps(ts: seq<Task>): seq<nat> {
    if ts == [] then [] else (if ts[0].Do? then [ts[0].op] else []) + TaskOps(ts[1..])
  }

  lemma {:induction false} FreshOpsAppend(a: seq<Entry>, b: seq<Entry>)
    ensures FreshOps(a + b) == FreshOps(a) + FreshOps(b)
  {
    if a == [] {
      assert a + b == b;
    } else {
      var h := if a[0].Fresh? then [a[0].op] else [];
      calc {
        FreshOps(a + b);
        { assert (a + b)[0] == a[0] && (a + b)[1..] == a[1..] + b; }
        h + FreshOps(a[1..] + b);
        { FreshOpsAppend(a[1..], b); }
        h + (FreshOps(a[1..]) + FreshOps(b));
        { Associate(h, FreshOps(a[1..]), FreshOps(b)); }
        FreshOps(a) + FreshOps(b);
      }
    }
  }

  lemma {:induction false} NoFreshOps(q: seq<Entry>)
    requires AllResume(q)
    ensures FreshOps(q) == []
  {
    if q != [] {
      NoFreshOps(q[1..]);
    }
  }

  lemma FreshOpsOne(e: Entry)
    ensures FreshOps([e]) == if e.Fresh? then [e.op] else []
  {
    assert [e][1..] == [];
  }

  lemma {:induction false} TaskOpsAppend(a: seq<Task>, b: seq<Task>)
    ensures TaskOps(a + b) == TaskOps(a) + TaskOps(b)
  {
    if a == [] {
      assert a + b == b;
    } else {
      var h := if a[0].Do? then [a[0].op] else [];
      calc {
        TaskOps(a + b);
        { assert (a + b)[0] == a[0] && (a + b)[1..] == a[1..] + b; }
        h + TaskOps(a[1..] + b);
        { TaskOpsAppend(a[1..], b); }
        h + (TaskOps(a[1..]) + TaskOps(b));
        { Associate(h, TaskOps(a[1..]), TaskOps(b)); }
        TaskOps(a) + TaskOps(b);
      }
    }
  }

  lemma {:induction false} TaskOpsBound(ts: seq<Task>, n: nat)
    requires forall i :: 0 <= i < |ts| && ts[i].Do? ==> ts[i].op < n
    ensures forall i :: 0 <= i < |TaskOps(ts)| ==> TaskOps(ts)[i] < n
  {
    if ts != [] {
      TaskOpsBound(ts[1..], n);
    }
  }

  // ---- The invariant ----

  /** Operations still to be issued, then those already issued, are all different. */
  predicate Distinct(issued: seq<nat>, tasks: seq<Task>, cells: nat) {
    NoDuplicates(issued + TaskOps(tasks)) && forall i :: 0 <= i < |issued| ==> issued[i] < cells
  }

  predicate Ordered(s: State) {
    Linked(s) &&
    s.hist.accepted == s.hist.run + s.tasks &&
    (!s.crashed ==>
       ResumeThenFresh(s.queue) &&
       s.hist.issued == s.hist.attempted + FreshOps(s.queue) &&
       Distinct(s.hist.issued, s.tasks, |s.cells|))
  }

  lemma EnteredEmpty(s: State, op: nat, s': State)
    requires s.queue == [] && Entered(s, op, s') && !s'.crashed && s.hist.issued == s.hist.attempted + [op]
    ensures ResumeThenFresh(s'.queue) && s'.hist.issued == s'.hist.attempted + FreshOps(s'.queue)
  {
    if s'.queue != [] {
      assert s'.queue == [s'.queue[0]];
      FreshOpsOne(s'.queue[0]);
    }
  }

  /** What `Submit` adds: the operation goes to the end of the issued ones, or is dropped. */
  lemma SubmitOrdered(s: State, op: nat, net: Net)
    requires Linked(s) && op < |s.cells| && !s.crashed
    requires ResumeThenFresh(s.queue) && s.hist.issued == s.hist.attempted + FreshOps(s.queue)
    ensures var s' := Submit(s, op, net);
            !s'.crashed ==>
              ResumeThenFresh(s'.queue) && s'.hist.issued == s'.hist.attempted + FreshOps(s'.queue)
  {
    var s' := Submit(s, op, net);
    if Refused(s, op, net) || s'.crashed {
    } else if s.queue == [] {
      EnteredEmpty(Issue(s, op), op, s');
    } else {
      FreshOpsAppend(s.queue, [Fresh(op)]);
      FreshOpsOne(Fresh(op));
      assert s.hist.issued + [op] == s.hist.attempted + (FreshOps(s.queue) + [op]);
    }
  }

  lemma InsertDistinct(issued: seq<nat>, rest: seq<nat>, x: nat)
    requires NoDuplicates(issued + rest)
    requires forall i :: 0 <= i < |issued + rest| ==> (issued + rest)[i] != x
    ensures NoDuplicates((issued + [x]) + rest)
  {
    var a, b := issued + rest, (issued + [x]) + rest;
    assert forall i :: 0 <= i < |issued| ==> b[i] == a[i];
    assert forall i :: |issued| < i < |b| ==> b[i] == a[i - 1];
  }

  lemma NewCellOrdered(s: State, s': State)
    requires Ordered(s) && !s.crashed && Grows(s, s') && |s'.cells| > |s.cells|
    requires !s'.crashed ==>
               ResumeThenFresh(s'.queue) && s'.hist.issued == s'.hist.attempted + FreshOps(s'.queue) &&
               s'.hist.issued == s.hist.issued + [|s.cells|]
    ensures Ordered(s')
  {
    TaskOpsBound(s.tasks, |s.cells|);
    InsertDistinct(s.hist.issued, TaskOps(s.tasks), |s.cells|);
  }

  lemma OneOrdered(s: State, sub: Subscription, net: Net)
    requires Ordered(s) && !s.crashed
    ensures Ordered(ResubscribeOne(s, sub, net))
  {
    var a := Allocate(s, Sub([sub]));
    assert Linked(a);
    SubmitOrdered(a, |s.cells|, net);
    NewCellOrdered(s, ResubscribeOne(s, sub, net));
  }

  lemma ResubscribeOrdered(s: State, saved: seq<Subscription>, nets: seq<Net>)
    requires Ordered(s)
    ensures Ordered(ResubscribeFrom(s, saved, nets, 0))
  {
    forall s: State, sub: Subscription, net: Net | Ordered(s) && !s.crashed
      ensures Ordered(ResubscribeOne(s, sub, net))
    {
      OneOrdered(s, sub, net);
    }
    ResubscribeKeeps(s => Ordered(s), s, saved, nets, 0);
  }

  lemma FreshPrefix(q: seq<Entry>, i: nat)
    requires i < |q| && ResumeThenFresh(q) && q[i].Resume?
    ensures AllResume(q[..i + 1]) && FreshOps(q[i..]) == FreshOps(q)
  {
    NoFreshOps(q[..i]);
    assert q == q[..i] + q[i..];
    FreshOpsAppend(q[..i], q[i..]);
  }

  /**
   The invariant of a Retry pass: what is left of the old queue is what remains to be
   attempted, and the new queue holds Resume entries only, none until a Fresh entry has run.
   */
  predicate Passing(s: State, saved: seq<Entry>, i: nat)
    requires i <= |saved|
  {
    InMemory(saved, s) && InMemory(s.queue, s) && ResumeThenFresh(saved) &&
    (!s.crashed ==>
       AllResume(s.queue) && (AllResume(saved[..i]) ==> s.queue == []) &&
       s.hist.issued == s.hist.attempted + FreshOps(saved[i..]))
  }

  /** What running one entry without a break changes, as far as order is concerned. */
  predicate Ran(s: State, e: Entry, s': State) {
    |s'.cells| == |s.cells| && InMemory(s'.queue, s') && s'.hist.issued == s.hist.issued &&
    s'.hist.doubled == s.hist.doubled &&
    (e.Resume? ==> s'.queue == s.queue && s'.established == s.established && s'.hist.since == s.hist.since
                   && s'.retryByError == s.retryByError && s'.hist.attempted == s.hist.attempted) &&
    (e.Fresh? && !s'.crashed ==>
       s'.hist.attempted == s.hist.attempted + [e.op] &&
       (AllResume(s.queue) ==> AllResume(s'.queue)))
  }

  lemma EntryRan(s: State, e: Entry, net: Net)
    requires e.op < |s.cells| && InMemory(s.queue, s) && !s.crashed
    ensures Ran(s, e, RunEntry(s, e, net))
  {
  }

  lemma PrefixResume(saved: seq<Entry>, i: nat)
    requires i < |saved|
    ensures AllResume(saved[..i + 1]) <==> AllResume(saved[..i]) && saved[i].Resume?
    ensures FreshOps(saved[i..]) == (if saved[i].Fresh? then [saved[i].op] else []) + FreshOps(saved[i + 1..])
  {
    assert saved[i..] == [saved[i]] + saved[i + 1..];
    assert saved[..i + 1] == saved[..i] + [saved[i]];
  }

  lemma PassStep(s: State, saved: seq<Entry>, i: nat, s': State)
    requires i < |saved| && !s.crashed && Passing(s, saved, i) && Ran(s, saved[i], s')
    ensures Passing(s', saved, i + 1)
  {
    PrefixResume(saved, i);
  }

  /** The entry at which the pass breaks, or the length of the queue. */
  function BreakAt(s: State, saved: seq<Entry>, nets: seq<Net>, i: nat): (k: nat)
    requires i <= |saved| && InMemory(saved, s)
    ensures i <= k <= |saved|
    decreases |saved| - i
  {
    if i == |saved| || s.crashed then |saved|
    else if Breaks(s, saved[i], NetAt(nets, i)) then i
    else BreakAt(RunEntry(s, saved[i], NetAt(nets, i)), saved, nets, i + 1)
  }

  /**
   What a Retry pass leaves. If it breaks at entry k, entries up to k were all Resume
   entries, so no Fresh entry has run, and the queue is the new continuation followed by the
   whole old queue; otherwise every entry ran and the queue holds Resume entries only.
   */
  predicate PassEnd(s: State, saved: seq<Entry>, i: nat, k: nat, s': State)
    requires i <= k <= |saved|
  {
    s'.hist.issued == s.hist.issued &&
    (!s'.crashed ==>
       if k < |saved| then
         AllResume(saved[..k + 1]) && s'.hist.doubled == s.hist.doubled + OpsOf(saved[..k + 1]) &&
         s'.queue != [] && s'.queue[1..] == saved && s'.queue[0].Resume? && s'.queue[0].op == saved[k].op &&
         s'.hist.attempted == s.hist.attempted && s'.established == s.established &&
         s'.hist.since == s.hist.since && s'.retryByError == s.retryByError
       else
         AllResume(s'.queue) && s'.hist.doubled == s.hist.doubled &&
         s'.hist.attempted == s.hist.attempted + FreshOps(saved[i..]))
  }

  lemma PassBreak(s: State, saved: seq<Entry>, nets: seq<Net>, i: nat)
    requires i < |saved| && !s.crashed && Passing(s, saved, i) && Breaks(s, saved[i], NetAt(nets, i))
    ensures PassEnd(s, saved, i, i, RetryFrom(s, saved, nets, i))
  {
    FreshPrefix(saved, i);
    assert AllResume(saved[..i]) by {
      assert forall j :: 0 <= j < i ==> saved[..i][j] == saved[..i + 1][j];
    }
  }

  lemma PassOn(s: State, s1: State, saved: seq<Entry>, i: nat, k: nat, s': State)
    requires i < k <= |saved| && Ran(s, saved[i], s1) && PassEnd(s1, saved, i + 1, k, s')
    requires s1.crashed ==> s'.crashed
    ensures PassEnd(s, saved, i, k, s')
  {
    assert saved[i..] == [saved[i]] + saved[i + 1..];
    FreshOpsAppend([saved[i]], saved[i + 1..]);
    FreshOpsOne(saved[i]);
    if k < |saved| {
      assert saved[..k + 1][i] == saved[i];
    }
  }

  lemma {:induction false} PassResult(s: State, saved: seq<Entry>, nets: seq<Net>, i: nat)
    requires i <= |saved| && Passing(s, saved, i)
    ensures PassEnd(s, saved, i, BreakAt(s, saved, nets, i), RetryFrom(s, saved, nets, i))
    decreases |saved| - i
  {
    if i == |saved| {
      assert saved[i..] == [];
    } else if !s.crashed {
      var e, net := saved[i], NetAt(nets, i);
      if Breaks(s, e, net) {
        PassBreak(s, saved, nets, i);
      } else {
        var s1 := RunEntry(s, e, net);
        EntryRan(s, e, net);
        PassStep(s, saved, i, s1);
        PassResult(s1, saved, nets, i + 1);
        PassOn(s, s1, saved, i, BreakAt(s, saved, nets, i), RetryFrom(s, saved, nets, i));
      }
    }
  }

  lemma StartPass(s: State)
    requires Ordered(s) && !s.crashed
    ensures Passing(s.(queue := []), s.queue, 0)
  {
    assert s.queue[0..] == s.queue;
  }

  lemma EndOrdered(s: State, k: nat, s': State)
    requires Ordered(s) && !s.crashed && Grows(s.(queue := []), s') && |s'.cells| >= |s.cells|
    requires k <= |s.queue| && PassEnd(s.(queue := []), s.queue, 0, k, s')
    ensures Ordered(s')
  {
    assert s.queue[0..] == s.queue;
    if !s'.crashed {
      if k < |s.queue| {
        assert s'.queue == [s'.queue[0]] + s.queue;
        FreshOpsAppend([s'.queue[0]], s.queue);
        FreshOpsOne(s'.queue[0]);
      } else {
        NoFreshOps(s'.queue);
      }
    }
  }

  lemma PassOrdered(s: State, nets: seq<Net>)
    requires Ordered(s) && !s.crashed
    ensures Ordered(RetryFrom(s.(queue := []), s.queue, nets, 0))
  {
    var s0 := s.(queue := []);
    StartPass(s);
    PassResult(s0, s.queue, nets, 0);
    EndOrdered(s, BreakAt(s0, s.queue, nets, 0), RetryFrom(s0, s.queue, nets, 0));
  }

  lemma PoppedDistinct(issued: seq<nat>, tasks: seq<Task>)
    requires NoDuplicates(issued + TaskOps(tasks)) && tasks != []
    ensures NoDuplicates(issued + TaskOps(tasks[1..]))
    ensures tasks[0].Do? ==> NoDuplicates((issued + [tasks[0].op]) + TaskOps(tasks[1..]))
  {
    var rest := TaskOps(tasks[1..]);
    if tasks[0].Do? {
      var op := tasks[0].op;
      assert issued + TaskOps(tasks) == (issued + [op]) + rest;
      DropOne(issued, [op] + rest);
      assert ([op] + rest)[1..] == rest;
    } else {
      assert TaskOps(tasks) == rest;
    }
  }

  lemma PoppedOrdered(s: State)
    requires Ordered(s) && !s.crashed && s.tasks != []
    ensures Ordered(Popped(s))
    ensures s.tasks[0].Do? ==> Distinct(s.hist.issued + [s.tasks[0].op], s.tasks[1..], |s.cells|)
  {
    PoppedDistinct(s.hist.issued, s.tasks);
    assert s.hist.run + s.tasks == (s.hist.run + [s.tasks[0]]) + s.tasks[1..];
  }

  lemma TurnOrdered(s: State, nets: seq<Net>)
    requires Ordered(s)
    ensures Ordered(Turn(s, nets))
  {
    if !s.crashed && s.tasks != [] {
      PoppedOrdered(s);
      var s1 := Popped(s);
      match s.tasks[0]
      case Do(op) => SubmitOrdered(s1, op, NetAt(nets, 0));
      case Resubscribe =>
        ResubscribeOrdered(Cleared(s1), s1.established, nets);
      case Retry => PassOrdered(s1, nets);
      case Disconnect =>
    }
  }

  lemma DropOne(issued: seq<nat>, rest: seq<nat>)
    requires NoDuplicates(issued + rest) && rest != []
    ensures NoDuplicates(issued + rest[1..])
  {
    var a, b := issued + rest, issued + rest[1..];
    assert forall i :: 0 <= i < |issued| ==> b[i] == a[i];
    assert forall i :: |issued| <= i < |b| ==> b[i] == a[i + 1];
  }

  lemma PushOrdered(s: State, t: Task)
    requires Ordered(s) && !s.crashed
    requires t.Do? ==> t.op < |s.cells| && t.op !in s.hist.issued && t.op !in TaskOps(s.tasks)
    ensures Ordered(Push(s, t))
  {
    assert [t][1..] == [];
    TaskOpsAppend(s.tasks, [t]);
    assert (s.hist.run + s.tasks) + [t] == s.hist.run + (s.tasks + [t]);
    assert s.hist.issued + TaskOps(s.tasks + [t]) == (s.hist.issued + TaskOps(s.tasks)) + TaskOps([t]);
  }

  lemma StepOrdered(s: State, e: Event)
    requires Ordered(s)
    ensures Ordered(Step(s, e))
  {
    match e
    case LoopTurn(nets) => TurnOrdered(s, nets);
    case Call(r, _) =>
      if !s.crashed {
        TaskOpsBound(s.tasks, |s.cells|);
        PushOrdered(Allocate(s, r), Do(|s.cells|));
      }
    case _ =>
      if !s.crashed {
        PushOrdered(s, Resubscribe);
        PushOrdered(s, Retry);
        PushOrdered(s, Disconnect);
      }
  }

  /** A panic ends a run. */
  lemma StaysCrashed(s: State, e: Event)
    requires Linked(s) && s.crashed
    ensures Step(s, e).crashed && Step(s, e).hist == s.hist
  {
  }

  /** The invariant holds in every reachable state. */
  lemma {:induction false} AlwaysOrdered(events: seq<Event>)
    ensures Ordered(After(events))
  {
    if events != [] {
      AlwaysOrdered(events[..|events| - 1]);
      StepOrdered(After(events[..|events| - 1]), events[|events| - 1]);
    }
  }

  // ---- What it means for callers ----

  /**
   In every reachable state the retry queue is all Resume entries followed by all Fresh
   entries, first attempts have happened in the order of issue, exactly the Fresh entries
   are still to come, and no operation is attempted for the first time twice.
   */
  lemma FirstAttemptsInOrder(events: seq<Event>)
    ensures var s := After(events);
            !s.crashed ==>
              ResumeThenFresh(s.queue) &&
              s.hist.attempted + FreshOps(s.queue) == s.hist.issued &&
              NoDuplicates(s.hist.attempted)
    ensures After(events).hist.run <= After(events).hist.accepted
  {
    AlwaysOrdered(events);
    var s := After(events);
    if !s.crashed {
      var all := s.hist.issued + TaskOps(s.tasks);
      assert forall i :: 0 <= i < |s.hist.attempted| ==> s.hist.attempted[i] == all[i];
    }
  }

  /** The entry at which a Retry task run in this state would break. */
  function RetryBreaksAt(s: State, nets: seq<Net>): (k: nat)
    requires Linked(s) && s.tasks != []
    ensures k <= |s.queue|
  {
    BreakAt(Popped(s).(queue := []), s.queue, nets, 0)
  }

  /** A Retry pass in any reachable state: no Fresh entry runs before a break, and the old queue is kept whole. */
  lemma RetryPass(events: seq<Event>, nets: seq<Net>)
    requires var s := After(events); !s.crashed && s.tasks != [] && s.tasks[0] == Retry
    ensures var s, s' := After(events), Step(After(events), LoopTurn(nets));
            var k := RetryBreaksAt(s, nets);
            !s'.crashed ==>
              if k < |s.queue| then
                AllResume(s.queue[..k + 1]) && s'.hist.attempted == s.hist.attempted &&
                s'.queue != [] && s'.queue[1..] == s.queue &&
                s'.queue[0].Resume? && s'.queue[0].op == s.queue[k].op
              else
                AllResume(s'.queue) && s'.hist.attempted == s.hist.issued
  {
    AlwaysOrdered(events);
    var s := After(events);
    var p := RetryFrom(Popped(s).(queue := []), s.queue, nets, 0);
    PopRetry(s, nets);
    assert Step(s, LoopTurn(nets)) == p.(retryByError := false);
  }

  lemma PopRetry(s: State, nets: seq<Net>)
    requires Ordered(s) && !s.crashed && s.tasks != [] && s.tasks[0] == Retry
    ensures PassEnd(Popped(s).(queue := []), s.queue, 0, RetryBreaksAt(s, nets),
                    RetryFrom(Popped(s).(queue := []), s.queue, nets, 0))
    ensures s.queue[0..] == s.queue
  {
    PoppedOrdered(s);
    StartPass(Popped(s));
    PassResult(Popped(s).(queue := []), s.queue, nets, 0);
  }

  // ---- Nothing moves while the retry queue waits ----

  predicate IsRetryTurn(s: State, e: Event) {
    e.LoopTurn? && !s.crashed && s.tasks != [] && s.tasks[0] == Retry
  }

  /** Nothing was tried and nothing left the queue. */
  predicate Stalled(s: State, s': State) {
    s.queue <= s'.queue && s'.hist.wire == s.hist.wire && s'.hist.attempted == s.hist.attempted &&
    s'.hist.acks == s.hist.acks && s'.hist.trials == s.hist.trials
  }

  lemma SubmitStalled(s: State, op: nat, net: Net)
    requires op < |s.cells| && s.queue != []
    ensures Stalled(s, Submit(s, op, net))
  {
  }

  lemma ResubscribeStalled(s: State, saved: seq<Subscription>, nets: seq<Net>)
    requires s.queue != []
    ensures Stalled(s, ResubscribeFrom(s, saved, nets, 0))
  {
    forall s1: State, sub: Subscription, net: Net | Stalled(s, s1)
      ensures Stalled(s, ResubscribeOne(s1, sub, net))
    {
      SubmitStalled(Allocate(s1, Sub([sub])), |s1.cells|, net);
    }
    ResubscribeKeeps(s1 => Stalled(s, s1), s, saved, nets, 0);
  }

  /**
   While the retry queue is not empty, no step other than a Retry task attempts
   anything on the network or takes anything out of the queue.
   */
  lemma StalledUntilRetry(s: State, e: Event)
    requires Linked(s) && s.queue != [] && !IsRetryTurn(s, e)
    ensures Stalled(s, Step(s, e))
  {
    if e.LoopTurn? && !s.crashed && s.tasks != [] {
      var s1 := Popped(s);
      match s.tasks[0]
      case Do(op) => SubmitStalled(s1, op, NetAt(e.nets, 0));
      case Resubscribe =>
        ResubscribeStalled(Cleared(s1), s1.established, e.nets);
      case Disconnect =>
    }
  }

  /**
   A Retry pass that breaks does not ask the loop over tasks to close the connection: the
   `newRetryByError` flag is raised by first attempts only.
   */
  lemma BrokenPassKeepsConnection(s: State, nets: seq<Net>)
    requires Ordered(s) && !s.crashed
    requires BreakAt(s.(queue := []), s.queue, nets, 0) < |s.queue|
    ensures var s' := Perform(s, Retry, nets); !s'.crashed ==> s'.retryByError == s.retryByError
  {
    StartPass(s);
    PassResult(s.(queue := []), s.queue, nets, 0);
  }
}
