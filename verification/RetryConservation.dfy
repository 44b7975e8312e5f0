/**
 Nothing is lost by the retry engine: a conservation law for operations over
 whole runs, which also says exactly what is duplicated and how often.
 */
module RetryConservation {
  import opened Bytes
  import opened Subscriptions
  import opened Sender
  import opened RetryModel
  import opened RetryOrder
  import opened RetryBlocks

  function Occurrences(s: seq<nat>, x: nat): nat {
    if s == [] then 0
    else Occurrences(s[..|s| - 1], x) + if s[|s| - 1] == x then 1 else 0
  }

  /** How often the queue holds the operation. */
  function Queued(q: seq<Entry>, x: nat): nat {
    if q == [] then 0
    else Queued(q[..|q| - 1], x) + if q[|q| - 1].op == x then 1 else 0
  }

  /** In how many places an operation is: acknowledged, ended by an error, or queued. */
  function Places(s: State, x: nat): nat {
    Occurrences(s.hist.acks, x) + Occurrences(s.hist.ended, x) + Queued(s.queue, x)
  }

  /** How many places too many: more than it was issued and doubled. */
  function Surplus(s: State, x: nat): int {
    Places(s, x) - Occurrences(s.hist.issued, x) - Occurrences(s.hist.doubled, x)
  }

  lemma Snoc(s: seq<nat>, y: nat, x: nat)
    ensures Occurrences(s + [y], x) == Occurrences(s, x) + if y == x then 1 else 0
    ensures Occurrences(s + [], x) == Occurrences(s, x)
  {
    assert (s + [y])[..|s|] == s && s + [] == s;
  }

  lemma QueueSnoc(q: seq<Entry>, e: Entry, x: nat)
    ensures Queued(q + [e], x) == Queued(q, x) + if e.op == x then 1 else 0
  {
    assert (q + [e])[..|q|] == q;
  }

  lemma {:induction false} QueueAppend(a: seq<Entry>, b: seq<Entry>, x: nat)
    ensures Queued(a + b, x) == Queued(a, x) + Queued(b, x)
  {
    if b == [] {
      assert a + b == a;
    } else {
      var b', e := b[..|b| - 1], b[|b| - 1];
      assert a + b == (a + b') + [e];
      QueueSnoc(a + b', e, x);
      QueueAppend(a, b', x);
    }
  }

  predicate HasEntry(q: seq<Entry>, op: nat) {
    exists i :: 0 <= i < |q| && q[i].op == op
  }

  lemma {:induction false} Occurs(s: seq<nat>, x: nat)
    ensures Occurrences(s, x) > 0 <==> x in s
  {
    if s != [] {
      Occurs(s[..|s| - 1], x);
      assert s == s[..|s| - 1] + [s[|s| - 1]];
    }
  }

  lemma {:induction false} IsQueued(q: seq<Entry>, x: nat)
    ensures Queued(q, x) > 0 <==> HasEntry(q, x)
  {
    if q != [] {
      var q' := q[..|q| - 1];
      IsQueued(q', x);
      assert forall i :: 0 <= i < |q'| ==> q[i] == q'[i];
      if q[|q| - 1].op == x {
        assert HasEntry(q, x);
      } else if HasEntry(q, x) {
        var i :| 0 <= i < |q| && q[i].op == x;
        assert q'[i].op == x;
      }
    }
  }

  // ---- One attempt puts its operation in one place ----

  lemma NotePlaces(s: State, op: nat, net: Net, t: Try, x: nat)
    requires op < |s.cells|
    ensures Places(Note(s, op, net, t), x)
            == Places(s, x) + if t.result in {Acked, Ended} && x == op then 1 else 0
  {
    Snoc(s.hist.acks, op, x);
    Snoc(s.hist.ended, op, x);
  }

  lemma QueuePlaces(s: State, more: seq<Entry>, s': State, x: nat)
    requires s'.hist.acks == s.hist.acks && s'.hist.ended == s.hist.ended && s'.queue == s.queue + more
    ensures Places(s', x) == Places(s, x) + Queued(more, x)
  {
    QueueAppend(s.queue, more, x);
  }

  lemma EnterPlaces(s: State, op: nat, list: seq<Subscription>, net: Net, t: Try, x: nat)
    requires op < |s.cells| && t.result != Crashed
    ensures Places(Enter(s, op, list, net, t), x) == Places(s, x) + if x == op then 1 else 0
  {
    var more := if t.result.Again? then [Resume(op, t.result.stage)] else [];
    NotePlaces(s, op, net, t, x);
    QueuePlaces(Note(s, op, net, t), more, Enter(s, op, list, net, t), x);
    if t.result.Again? {
      QueueCons(more[0], [], x);
      assert more == [more[0]] + [];
    }
  }

  lemma AttemptPlaces(s: State, op: nat, net: Net, x: nat)
    requires op < |s.cells|
    ensures var s' := FirstAttempt(s, op, net);
            !s'.crashed ==> Places(s', x) == Places(s, x) + if x == op then 1 else 0
  {
    var list := Applied(s.established, s.cells[op]);
    var t := TryRequest(s.cells[op], First, net);
    if list.Ok? && t.result != Crashed {
      EnterPlaces(s, op, list.value, net, t, x);
    }
  }

  lemma ResumePlaces(s: State, op: nat, stage: Stage, net: Net, x: nat)
    requires op < |s.cells|
    ensures var s' := RunResume(s, op, stage, net);
            !s'.crashed ==>
              Places(s', x) == Places(s, x) + if x == op && !Breaks(s, Resume(op, stage), net) then 1 else 0
  {
    NotePlaces(s, op, net, TryRequest(s.cells[op], stage, net), x);
  }

  lemma EntryPlaces(s: State, e: Entry, net: Net, x: nat)
    requires e.op < |s.cells| && !Breaks(s, e, net)
    ensures var s' := RunEntry(s, e, net);
            !s'.crashed ==> Places(s', x) == Places(s, x) + if x == e.op then 1 else 0
  {
    if e.Fresh? {
      AttemptPlaces(s, e.op, net, x);
    } else {
      ResumePlaces(s, e.op, e.stage, net, x);
    }
  }

  lemma SubmitSurplus(s: State, op: nat, net: Net, x: nat)
    requires op < |s.cells|
    ensures var s' := Submit(s, op, net); !s'.crashed ==> Surplus(s', x) == Surplus(s, x)
  {
    var s', i := Submit(s, op, net), Issue(s, op);
    assert Places(i, x) == Places(s, x);
    if Refused(s, op, net) {
      assert s' == Drop(s, op);
    } else {
      Snoc(s.hist.issued, op, x);
      if s.queue == [] {
        assert s' == FirstAttempt(i, op, net);
        AttemptPlaces(i, op, net, x);
      } else {
        QueueSnoc(s.queue, Fresh(op), x);
      }
    }
  }

  lemma OneSurplus(s: State, sub: Subscription, net: Net, x: nat)
    ensures var s' := ResubscribeOne(s, sub, net); !s'.crashed ==> Surplus(s', x) == Surplus(s, x)
  {
    var a := Allocate(s, Sub([sub]));
    assert Surplus(a, x) == Surplus(s, x);
    SubmitSurplus(a, |s.cells|, net, x);
  }

  lemma ResubscribeSurplus(s: State, saved: seq<Subscription>, nets: seq<Net>, x: nat)
    ensures var s' := ResubscribeFrom(s, saved, nets, 0); !s'.crashed ==> Surplus(s', x) == Surplus(s, x)
  {
    var P := (s1: State) => s1.crashed || Surplus(s1, x) == Surplus(s, x);
    forall s1: State, sub: Subscription, net: Net | P(s1) && !s1.crashed
      ensures P(ResubscribeOne(s1, sub, net))
    {
      OneSurplus(s1, sub, net, x);
    }
    ResubscribeKeeps(P, s, saved, nets, 0);
  }

  // ---- A Retry pass ----

  lemma {:induction false} OccurrencesAppend(a: seq<nat>, b: seq<nat>, x: nat)
    ensures Occurrences(a + b, x) == Occurrences(a, x) + Occurrences(b, x)
  {
    if b == [] {
      assert a + b == a;
    } else {
      var b', y := b[..|b| - 1], b[|b| - 1];
      assert a + b == (a + b') + [y];
      Snoc(a + b', y, x);
      OccurrencesAppend(a, b', x);
    }
  }

  lemma {:induction false} QueuedOps(q: seq<Entry>, x: nat)
    ensures Occurrences(OpsOf(q), x) == Queued(q, x)
  {
    if q != [] {
      QueuedOps(q[..|q| - 1], x);
      assert OpsOf(q)[..|q| - 1] == OpsOf(q[..|q| - 1]);
    }
  }

  /** A break keeps the whole old queue besides the new continuation. */
  lemma BreakPlaces(s: State, saved: seq<Entry>, nets: seq<Net>, i: nat, x: nat)
    requires i < |saved| && InMemory(saved, s) && !s.crashed && Breaks(s, saved[i], NetAt(nets, i))
    ensures var s' := RetryFrom(s, saved, nets, i);
            !s'.crashed && s'.hist.doubled == s.hist.doubled + OpsOf(saved[..i + 1]) &&
            Places(s', x) == Places(s, x) + Queued(saved, x) + if x == saved[i].op then 1 else 0
  {
    var e, net := saved[i], NetAt(nets, i);
    ResumePlaces(s, e.op, e.stage, net, x);
    var c := Resume(e.op, TryRequest(s.cells[e.op], e.stage, net).result.stage);
    QueueAppend(s.queue + [c], saved, x);
    QueueSnoc(s.queue, c, x);
  }

  /**
   What a pass does to the places of an operation: if it breaks at entry k, the entries run
   so far have each found a place and the whole old queue is there besides.
   */
  predicate PassCounts(s: State, saved: seq<Entry>, i: nat, k: nat, s': State, x: nat)
    requires i <= k <= |saved|
  {
    !s'.crashed ==>
      if k < |saved| then
        s'.hist.doubled == s.hist.doubled + OpsOf(saved[..k + 1]) &&
        Places(s', x) == Places(s, x) + Queued(saved[i..k + 1], x) + Queued(saved, x)
      else
        s'.hist.doubled == s.hist.doubled && Places(s', x) == Places(s, x) + Queued(saved[i..], x)
  }

  lemma QueueCons(e: Entry, q: seq<Entry>, x: nat)
    ensures Queued([e] + q, x) == Queued(q, x) + if x == e.op then 1 else 0
  {
    QueueAppend([e], q, x);
    QueueSnoc([], e, x);
    assert [] + [e] == [e];
  }

  lemma BreakCounts(s: State, saved: seq<Entry>, nets: seq<Net>, i: nat, x: nat)
    requires i < |saved| && InMemory(saved, s) && !s.crashed && Breaks(s, saved[i], NetAt(nets, i))
    ensures PassCounts(s, saved, i, i, RetryFrom(s, saved, nets, i), x)
  {
    BreakPlaces(s, saved, nets, i, x);
    assert saved[i..i + 1] == [saved[i]] + [];
    QueueCons(saved[i], [], x);
  }

  lemma {:induction false} PassPlaces(s: State, saved: seq<Entry>, nets: seq<Net>, i: nat, x: nat)
    requires i <= |saved| && InMemory(saved, s)
    ensures PassCounts(s, saved, i, BreakAt(s, saved, nets, i), RetryFrom(s, saved, nets, i), x)
    decreases |saved| - i
  {
    if i == |saved| {
      assert saved[i..] == [];
    } else if !s.crashed {
      var e, net := saved[i], NetAt(nets, i);
      if Breaks(s, e, net) {
        BreakCounts(s, saved, nets, i, x);
      } else {
        var s1 := RunEntry(s, e, net);
        EntryPlaces(s, e, net, x);
        PassPlaces(s1, saved, nets, i + 1, x);
        PassCountsOn(s, s1, saved, i, BreakAt(s, saved, nets, i), RetryFrom(s, saved, nets, i), x);
      }
    }
  }

  lemma PassCountsOn(s: State, s1: State, saved: seq<Entry>, i: nat, k: nat, s': State, x: nat)
    requires i < k <= |saved| && PassCounts(s1, saved, i + 1, k, s', x) && (s1.crashed ==> s'.crashed)
    requires s1.hist.doubled == s.hist.doubled
    requires !s1.crashed ==> Places(s1, x) == Places(s, x) + if x == saved[i].op then 1 else 0
    ensures PassCounts(s, saved, i, k, s', x)
  {
    var to := if k < |saved| then k + 1 else k;
    assert saved[i..to] == [saved[i]] + saved[i + 1..to];
    QueueCons(saved[i], saved[i + 1..to], x);
    assert saved[i..|saved|] == saved[i..] && saved[i + 1..|saved|] == saved[i + 1..];
  }

  // ---- The conservation law ----

  /**
   Every operation is in as many places as it was issued, plus one for each time that a Retry
   pass broke after having run an entry of it; only issued operations are doubled.
   */
  ghost predicate Balanced(s: State) {
    forall x: nat :: Surplus(s, x) == 0 && (x in s.hist.doubled ==> x in s.hist.issued)
  }

  lemma PassSurplus(s: State, nets: seq<Net>, x: nat)
    requires Ordered(s) && !s.crashed
    ensures var s' := RetryFrom(s.(queue := []), s.queue, nets, 0);
            !s'.crashed ==>
              Surplus(s', x) == Surplus(s, x) &&
              (x in s'.hist.doubled ==> x in s.hist.doubled || Queued(s.queue, x) > 0)
  {
    var s0, q := s.(queue := []), s.queue;
    var k := BreakAt(s0, q, nets, 0);
    PassPlaces(s0, q, nets, 0, x);
    assert q[0..] == q;
    if k < |q| {
      assert q == q[..k + 1] + q[k + 1..] && q[0..k + 1] == q[..k + 1];
      RanTwice(s.hist.doubled, q[..k + 1], q[k + 1..], x);
      Occurs(s.hist.doubled, x);
      Occurs(s.hist.doubled + OpsOf(q[..k + 1]), x);
    }
  }

  /** The entries that a pass had run when it broke, and those that it had not. */
  lemma RanTwice(doubled: seq<nat>, ran: seq<Entry>, rest: seq<Entry>, x: nat)
    ensures Occurrences(doubled + OpsOf(ran), x) == Occurrences(doubled, x) + Queued(ran, x)
    ensures Queued(ran, x) <= Queued(ran + rest, x)
  {
    QueuedOps(ran, x);
    OccurrencesAppend(doubled, OpsOf(ran), x);
    QueueAppend(ran, rest, x);
  }

  lemma PassBalanced(s: State, nets: seq<Net>)
    requires Ordered(s) && !s.crashed && Balanced(s)
    ensures var s' := RetryFrom(s.(queue := []), s.queue, nets, 0); !s'.crashed ==> Balanced(s')
  {
    var s' := RetryFrom(s.(queue := []), s.queue, nets, 0);
    if !s'.crashed {
      forall x: nat ensures Surplus(s', x) == 0 && (x in s'.hist.doubled ==> x in s'.hist.issued) {
        assert Surplus(s, x) == 0 && (x in s.hist.doubled ==> x in s.hist.issued);
        PassSurplus(s, nets, x);
        Occurs(s.hist.issued, x);
        Occurs(s.hist.doubled, x);
      }
    }
  }

  lemma SameBalanced(s: State, s': State)
    requires Balanced(s) && s'.hist.doubled == s.hist.doubled && s.hist.issued <= s'.hist.issued
    requires forall x: nat :: Surplus(s', x) == Surplus(s, x)
    ensures Balanced(s')
  {
    forall x: nat ensures Surplus(s', x) == 0 && (x in s'.hist.doubled ==> x in s'.hist.issued) {
      assert Surplus(s, x) == 0 && (x in s.hist.doubled ==> x in s.hist.issued);
    }
  }

  lemma QuietBalanced(s: State, s': State)
    requires Balanced(s) && s'.hist.doubled == s.hist.doubled && s'.hist.issued == s.hist.issued
    requires s'.queue == s.queue && s'.hist.acks == s.hist.acks && s'.hist.ended == s.hist.ended
    ensures Balanced(s')
  {
    forall x: nat ensures Surplus(s', x) == Surplus(s, x) {}
    SameBalanced(s, s');
  }

  lemma TaskBalanced(s: State, t: Task, nets: seq<Net>)
    requires Ordered(s) && !s.crashed && Balanced(s) && (t.Do? ==> t.op < |s.cells|)
    ensures var s' := Perform(s, t, nets); !s'.crashed ==> Balanced(s')
  {
    var s' := Perform(s, t, nets);
    match t
    case Do(op) =>
      if !s'.crashed {
        forall x: nat ensures Surplus(s', x) == Surplus(s, x) { SubmitSurplus(s, op, NetAt(nets, 0), x); }
        SameBalanced(s, s');
      }
    case Resubscribe =>
      var s2 := Cleared(s);
      if !s'.crashed {
        forall x: nat ensures Surplus(s', x) == Surplus(s, x) {
          ResubscribeSurplus(s2, s.established, nets, x);
          assert Surplus(s2, x) == Surplus(s, x);
        }
        SameBalanced(s, s');
      }
    case Retry => PassBalanced(s, nets);
    case Disconnect =>
  }

  lemma StepBalanced(s: State, e: Event)
    requires Ordered(s) && (!s.crashed ==> Balanced(s))
    ensures var s' := Step(s, e); !s'.crashed ==> Balanced(s')
  {
    if !s.crashed {
      if !e.LoopTurn? {
        QuietBalanced(s, Step(s, e));
      } else if s.tasks != [] {
        PoppedOrdered(s);
        QuietBalanced(s, Popped(s));
        TaskBalanced(Popped(s), s.tasks[0], e.nets);
        var p := Perform(Popped(s), s.tasks[0], e.nets);
        if !p.crashed {
          QuietBalanced(p, Step(s, e));
        }
      }
    }
  }

  /** The conservation law holds in every reachable state. */
  lemma {:induction false} AlwaysBalanced(events: seq<Event>)
    ensures Ordered(After(events))
    ensures !After(events).crashed ==> Balanced(After(events))
  {
    AlwaysOrdered(events);
    if events != [] {
      AlwaysBalanced(events[..|events| - 1]);
      StepBalanced(After(events[..|events| - 1]), events[|events| - 1]);
    }
  }

  // ---- What it means for callers ----

  /**
   No loss. In every reachable state each accepted operation is still a
   queued task, was dropped unsent by its task, or was issued and is acknowledged, ended
   by a non-retryable error, or held by an entry of the retry queue.
   */
  lemma NoLoss(events: seq<Event>, op: nat)
    requires Do(op) in After(events).hist.accepted && !After(events).crashed
    ensures var s := After(events);
            || Do(op) in s.tasks
            || op in s.hist.dropped
            || (op in s.hist.issued && (op in s.hist.acks || op in s.hist.ended || HasEntry(s.queue, op)))
  {
    AlwaysBalanced(events);
    AlwaysBlocks(events);
    var s := After(events);
    if Do(op) !in s.tasks && op !in s.hist.dropped {
      assert s.hist.accepted == s.hist.run + s.tasks;
      var b :| 0 <= b < |s.hist.run| && s.hist.run[b] == Do(op);
      InFlatten(Blocks(events), b, op);
      Occurs(s.hist.issued, op);
      assert Surplus(s, op) == 0;
      Occurs(s.hist.acks, op);
      Occurs(s.hist.ended, op);
      IsQueued(s.queue, op);
    }
  }

  /** A task that was accepted at b and has issued y has run, and its block is what it has issued. */
  lemma InBlock(events: seq<Event>, b: nat, y: nat)
    requires var s := After(events);
             !s.crashed && b < |s.hist.accepted| && s.hist.accepted[b] == Do(y) && y in s.hist.issued
    ensures b < |After(events).hist.run| && b < |Blocks(events)| && Blocks(events)[b] == [y]
  {
    IssuedHasRun(events, b);
    AlwaysBlocks(events);
    AlwaysOrdered(events);
    DroppedNotIssued(events, y);
    assert After(events).hist.run[b] == Do(y);
  }

  /**
   First attempts follow acceptance: of two accepted operations, the later one is
   attempted only after the earlier one has been, unless the earlier one was dropped.
   */
  lemma AcceptanceOrder(events: seq<Event>, a: nat, b: nat)
    requires var s := After(events);
             !s.crashed && a < b < |s.hist.accepted| && s.hist.accepted[a].Do? && s.hist.accepted[b].Do? &&
             s.hist.accepted[a].op !in s.hist.dropped && s.hist.accepted[b].op in s.hist.attempted
    ensures var s := After(events);
            Before(s.hist.attempted, s.hist.accepted[a].op, s.hist.accepted[b].op)
  {
    AlwaysOrdered(events);
    AlwaysBlocks(events);
    var s := After(events);
    var x, y := s.hist.accepted[a].op, s.hist.accepted[b].op;
    assert y in s.hist.issued;
    InBlock(events, b, y);
    assert s.hist.run[a] == Do(x);
    BlockOrder(events, a, b, x, y);
  }

  /**
   The operations that a Resubscribe adds take its place: each is first attempted after whatever
   was issued for tasks accepted before it, and before any operation accepted after it.
   */
  lemma ExpansionOrder(events: seq<Event>, a: nat, x: nat, b: nat)
    requires var s := After(events);
             !s.crashed && a < |s.hist.run| && s.hist.run[a] == Resubscribe && a < |Blocks(events)| &&
             x in Blocks(events)[a]
    requires var s := After(events);
             b < |s.hist.accepted| && s.hist.accepted[b].Do? && s.hist.accepted[b].op in s.hist.issued
    ensures var s, y := After(events), After(events).hist.accepted[b].op;
            (b < a && x in s.hist.attempted ==> Before(s.hist.attempted, y, x)) &&
            (a < b && y in s.hist.attempted ==> Before(s.hist.attempted, x, y))
  {
    var s := After(events);
    var y := s.hist.accepted[b].op;
    InBlock(events, b, y);
    if b < a && x in s.hist.attempted {
      BlockOrder(events, b, a, y, x);
    }
    if a < b && y in s.hist.attempted {
      BlockOrder(events, a, b, x, y);
    }
  }

  lemma IssuedHasRun(events: seq<Event>, b: nat)
    requires var s := After(events);
             !s.crashed && b < |s.hist.accepted| && s.hist.accepted[b].Do? &&
             s.hist.accepted[b].op in s.hist.issued
    ensures b < |After(events).hist.run|
  {
    AlwaysOrdered(events);
    var s := After(events);
    if b >= |s.hist.run| {
      var k := b - |s.hist.run|;
      assert s.hist.accepted == s.hist.run + s.tasks;
      assert s.tasks[k] == s.hist.accepted[b];
      assert s.tasks[k].op in s.hist.issued;
      TaskOpsHas(s.tasks, k);
      Overlap(s.hist.issued, TaskOps(s.tasks), s.tasks[k].op);
    }
  }

  lemma Overlap(a: seq<nat>, b: seq<nat>, x: nat)
    requires x in a && x in b
    ensures !NoDuplicates(a + b)
  {
    var i :| 0 <= i < |a| && a[i] == x;
    var j :| 0 <= j < |b| && b[j] == x;
    assert (a + b)[i] == (a + b)[|a| + j];
  }

  lemma {:induction false} TaskOpsHas(ts: seq<Task>, k: nat)
    requires k < |ts| && ts[k].Do?
    ensures ts[k].op in TaskOps(ts)
  {
    if k > 0 {
      TaskOpsHas(ts[1..], k - 1);
    }
  }

  /** An operation is dropped or issued, never both. */
  predicate Apart(s: State) {
    forall i :: 0 <= i < |s.hist.dropped| ==>
      s.hist.dropped[i] < |s.cells| &&
      s.hist.dropped[i] !in s.hist.issued && s.hist.dropped[i] !in TaskOps(s.tasks)
  }

  lemma SubmitApart(s: State, op: nat, net: Net)
    requires Apart(s) && op < |s.cells| && op !in s.hist.issued && op !in TaskOps(s.tasks) && op !in s.hist.dropped
    ensures Apart(Submit(s, op, net))
  {
    var s' := Submit(s, op, net);
    assert forall x :: x in s'.hist.issued ==> x in s.hist.issued || x == op;
  }

  /** Operations issued later are new ones. */
  lemma ResubscribeApart(s: State, saved: seq<Subscription>, nets: seq<Net>)
    ensures var s' := ResubscribeFrom(s, saved, nets, 0);
            forall x :: x in s'.hist.issued ==> x in s.hist.issued || x >= |s.cells|
  {
    ResubscribeKeeps(s1 => NewOnes(s, s1), s, saved, nets, 0);
  }

  predicate NewOnes(s: State, s': State) {
    |s.cells| <= |s'.cells| &&
    forall i :: 0 <= i < |s'.hist.issued| ==> s'.hist.issued[i] in s.hist.issued || s'.hist.issued[i] >= |s.cells|
  }

  lemma PoppedApart(s: State)
    requires Ordered(s) && !s.crashed && s.tasks != [] && Apart(s)
    ensures Apart(Popped(s))
    ensures s.tasks[0].Do? ==> s.tasks[0].op !in s.hist.issued && s.tasks[0].op !in TaskOps(s.tasks[1..])
                               && s.tasks[0].op !in s.hist.dropped
  {
    if s.tasks[0].Do? {
      TaskOpsHas(s.tasks, 0);
      PoppedOrdered(s);
      var all := (s.hist.issued + [s.tasks[0].op]) + TaskOps(s.tasks[1..]);
      assert all[|s.hist.issued|] == s.tasks[0].op;
      assert forall i :: 0 <= i < |s.hist.issued| ==> all[i] == s.hist.issued[i];
      assert forall i :: 0 <= i < |TaskOps(s.tasks[1..])| ==>
                         all[|s.hist.issued| + 1 + i] == TaskOps(s.tasks[1..])[i];
    }
  }

  lemma TurnApart(s: State, nets: seq<Net>)
    requires Ordered(s) && !s.crashed && Apart(s) && s.tasks != []
    ensures Apart(Turn(s, nets))
  {
    PoppedApart(s);
    var s1 := Popped(s);
    match s.tasks[0]
    case Do(op) => SubmitApart(s1, op, NetAt(nets, 0));
    case Resubscribe =>
      ResubscribeApart(Cleared(s1), s1.established, nets);
    case Retry =>
    case Disconnect =>
  }

  lemma StepApart(s: State, e: Event)
    requires Ordered(s) && (!s.crashed ==> Apart(s))
    ensures !Step(s, e).crashed ==> Apart(Step(s, e))
  {
    if !s.crashed {
      if !e.LoopTurn? {
        PushApart(s, e);
      } else if s.tasks != [] {
        TurnApart(s, e.nets);
      }
    }
  }

  lemma PushApart(s: State, e: Event)
    requires Linked(s) && Apart(s) && !e.LoopTurn?
    ensures Apart(Step(s, e))
  {
    var s' := Step(s, e);
    if s'.tasks != s.tasks {
      var t := s'.tasks[|s.tasks|];
      assert s'.tasks == s.tasks + [t];
      assert [t][1..] == [];
      TaskOpsAppend(s.tasks, [t]);
    }
  }

  lemma {:induction false} AlwaysApart(events: seq<Event>)
    ensures !After(events).crashed ==> Apart(After(events))
  {
    if events != [] {
      AlwaysOrdered(events[..|events| - 1]);
      AlwaysApart(events[..|events| - 1]);
      StepApart(After(events[..|events| - 1]), events[|events| - 1]);
    }
  }

  lemma DroppedNotIssued(events: seq<Event>, op: nat)
    requires !After(events).crashed && op in After(events).hist.issued
    ensures op !in After(events).hist.dropped
  {
    AlwaysApart(events);
  }

  /**
   In how many places an operation is: one if it was issued, and one more for each time that a
   broken Retry pass had run an entry of it. So it is in exactly one place if and only if it was
   issued and never doubled.
   */
  lemma OncePerOperation(events: seq<Event>, x: nat)
    requires !After(events).crashed
    ensures var s := After(events);
            Places(s, x) == (if x in s.hist.issued then 1 else 0) + Occurrences(s.hist.doubled, x) &&
            (Places(s, x) == 1 <==> x in s.hist.issued && x !in s.hist.doubled)
  {
    AlwaysBalanced(events);
    InPlaces(After(events), x);
  }

  lemma InPlaces(s: State, x: nat)
    requires Ordered(s) && !s.crashed && Balanced(s)
    ensures Places(s, x) == (if x in s.hist.issued then 1 else 0) + Occurrences(s.hist.doubled, x)
    ensures Places(s, x) == 1 <==> x in s.hist.issued && x !in s.hist.doubled
  {
    var all := s.hist.issued + TaskOps(s.tasks);
    assert NoDuplicates(s.hist.issued) by {
      assert forall i :: 0 <= i < |s.hist.issued| ==> all[i] == s.hist.issued[i];
    }
    DistinctOnce(s.hist.issued, x);
    assert Surplus(s, x) == 0 && (x in s.hist.doubled ==> x in s.hist.issued);
    Occurs(s.hist.doubled, x);
  }

  lemma {:induction false} DistinctOnce(s: seq<nat>, x: nat)
    requires NoDuplicates(s)
    ensures Occurrences(s, x) == if x in s then 1 else 0
  {
    if s != [] {
      var s' := s[..|s| - 1];
      DistinctOnce(s', x);
      assert s == s' + [s[|s| - 1]];
    }
  }
}
