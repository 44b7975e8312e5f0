/**
 When the loop over tasks closes the connection: exactly after a turn in which some
 operation's first attempt failed with a retryable error.
 */
module RetryFlag {
  import opened Subscriptions
  import opened Sender
  import opened RetryModel
  import opened RetryWire
  import opened RetryEffects

  /** The first attempt of the operation, read off the history, ended with a retryable error. */
  predicate FirstFailed(s: State, x: nat) {
    x < |s.hist.requests| && NetsOf(s.hist.trials, x) != [] &&
    TryRequest(s.hist.requests[x], First, NetsOf(s.hist.trials, x)[0]).result.Again?
  }

  /** Attempts are recorded as trials, and only they are. */
  predicate Tried(s: State) {
    (forall i :: 0 <= i < |s.hist.trials| ==> s.hist.trials[i].op in s.hist.attempted) &&
    (forall i :: 0 <= i < |s.hist.attempted| ==> NetsOf(s.hist.trials, s.hist.attempted[i]) != [])
  }

  predicate FailedSince(s: State, base: nat) {
    exists i :: base <= i < |s.hist.attempted| && FirstFailed(s, s.hist.attempted[i])
  }

  /** The flag says whether some first attempt since `base` failed with a retryable error. */
  predicate Flagged(s: State, base: nat) {
    Tried(s) && base <= |s.hist.attempted| && (s.retryByError <==> FailedSince(s, base))
  }

  /** What an attempt leaves of earlier first attempts. */
  lemma SameFirst(s: State, op: nat, first: bool, net: Net, t: Try, s': State, x: nat)
    requires op < |s.cells| && Attempted(s, op, first, net, t, s') && Tried(s) && x in s.hist.attempted
    ensures FirstFailed(s', x) == FirstFailed(s, x) && NetsOf(s'.hist.trials, x) != []
  {
    NoteView(s, op, net, t, x);
    var a := s.hist.attempted;
    var i :| 0 <= i < |a| && a[i] == x;
    assert NetsOf(s.hist.trials, a[i]) != [];
  }

  lemma AttemptTried(s: State, op: nat, first: bool, net: Net, t: Try, s': State)
    requires op < |s.cells| && Attempted(s, op, first, net, t, s') && Tried(s) && op in s'.hist.attempted
    ensures Tried(s')
  {
    forall i | 0 <= i < |s'.hist.attempted| ensures NetsOf(s'.hist.trials, s'.hist.attempted[i]) != [] {
      if i < |s.hist.attempted| {
        assert s'.hist.attempted[i] == s.hist.attempted[i];
        SameFirst(s, op, first, net, t, s', s.hist.attempted[i]);
      } else {
        NoteView(s, op, net, t, op);
      }
    }
    assert forall x :: x in s.hist.attempted ==> x in s'.hist.attempted;
  }

  /** A first attempt raises the flag exactly when it fails with a retryable error. */
  lemma FirstFlagged(s: State, op: nat, net: Net, base: nat)
    requires op < |s.cells| && op < |s.hist.requests| && s.cells[op] == s.hist.requests[op]
    requires Flagged(s, base) && op !in s.hist.attempted
    ensures var s' := FirstAttempt(s, op, net); !s'.crashed ==> Flagged(s', base)
  {
    var s', t := FirstAttempt(s, op, net), TryRequest(s.cells[op], First, net);
    if !s'.crashed {
      AttemptTried(s, op, true, net, t, s');
      NoTrials(s.hist.trials, op);
      NoteView(s, op, net, t, op);
      assert NetsOf(s'.hist.trials, op) == [net];
      assert FirstFailed(s', op) == t.result.Again?;
      FlagAppends(s, op, net, t, s', base);
    }
  }

  lemma FlagAppends(s: State, op: nat, net: Net, t: Try, s': State, base: nat)
    requires op < |s.cells| && Attempted(s, op, true, net, t, s') && Tried(s) && base <= |s.hist.attempted|
    ensures FailedSince(s', base) <==> FailedSince(s, base) || FirstFailed(s', op)
  {
    var a, a' := s.hist.attempted, s'.hist.attempted;
    forall i | 0 <= i < |a| ensures FirstFailed(s', a'[i]) == FirstFailed(s, a[i]) {
      SameFirst(s, op, true, net, t, s', a[i]);
    }
    if FailedSince(s, base) {
      var i :| base <= i < |a| && FirstFailed(s, a[i]);
      assert FirstFailed(s', a'[i]);
    }
    if FirstFailed(s', op) {
      assert FirstFailed(s', a'[|a|]);
    }
  }

  lemma ResumeFlagged(s: State, op: nat, stage: Stage, net: Net, base: nat)
    requires op < |s.cells| && op in s.hist.attempted && Flagged(s, base)
    ensures var s' := RunResume(s, op, stage, net); !s'.crashed ==> Flagged(s', base)
  {
    var s', t := RunResume(s, op, stage, net), TryRequest(s.cells[op], stage, net);
    if !s'.crashed {
      AttemptTried(s, op, false, net, t, s');
      forall i | 0 <= i < |s.hist.attempted|
        ensures FirstFailed(s', s.hist.attempted[i]) == FirstFailed(s, s.hist.attempted[i])
      {
        SameFirst(s, op, false, net, t, s', s.hist.attempted[i]);
      }
    }
  }

  /** The flag's meaning depends only on requests, trials and first attempts. */
  lemma SameFlagged(s: State, s': State, base: nat)
    requires Flagged(s, base) && s'.hist.trials == s.hist.trials && s'.hist.attempted == s.hist.attempted
    requires s.hist.requests <= s'.hist.requests && s'.retryByError == s.retryByError
    requires forall i :: 0 <= i < |s.hist.attempted| ==> s.hist.attempted[i] < |s.hist.requests|
    ensures Flagged(s', base)
  {
    forall i | 0 <= i < |s.hist.attempted|
      ensures FirstFailed(s', s.hist.attempted[i]) == FirstFailed(s, s.hist.attempted[i])
    {
    }
  }

  lemma SubmitFlagged(s: State, op: nat, net: Net, base: nat)
    requires op < |s.cells| && Effective(s) && op !in s.hist.attempted && Flagged(s, base)
    ensures var s' := Submit(s, op, net); !s'.crashed ==> Flagged(s', base)
  {
    var i := Issue(s, op);
    if Refused(s, op, net) || s.queue != [] {
      SameFlagged(s, Submit(s, op, net), base);
    } else {
      SameFlagged(s, i, base);
      FirstFlagged(i, op, net, base);
    }
  }

  lemma OneFlagged(s: State, sub: Subscription, net: Net, base: nat)
    requires Effective(s) && Flagged(s, base)
    ensures var s' := ResubscribeOne(s, sub, net); !s'.crashed ==> Effective(s') && Flagged(s', base)
  {
    var a := Allocate(s, Sub([sub]));
    OneEffective(s, sub, net);
    AllocateEffective(s, Sub([sub]));
    SameFlagged(s, a, base);
    SubmitFlagged(a, |s.cells|, net, base);
  }

  lemma ResubscribeFlagged(s: State, saved: seq<Subscription>, nets: seq<Net>, base: nat)
    requires Effective(s) && Flagged(s, base)
    ensures var s' := ResubscribeFrom(s, saved, nets, 0); !s'.crashed ==> Flagged(s', base)
  {
    var P := (s1: State) => s1.crashed || (Effective(s1) && Flagged(s1, base));
    forall s1: State, sub: Subscription, net: Net | P(s1) && !s1.crashed
      ensures P(ResubscribeOne(s1, sub, net))
    {
      OneFlagged(s1, sub, net, base);
    }
    ResubscribeKeeps(P, s, saved, nets, 0);
  }

  lemma {:induction false} PassFlagged(s: State, saved: seq<Entry>, nets: seq<Net>, i: nat, base: nat)
    requires i <= |saved| && InMemory(saved, s)
    requires !s.crashed ==> PassReady(s, saved, i) && Flagged(s, base)
    ensures var s' := RetryFrom(s, saved, nets, i); !s'.crashed ==> Flagged(s', base)
    decreases |saved| - i
  {
    if !s.crashed && i < |saved| {
      var e, net := saved[i], NetAt(nets, i);
      var s1 := RunEntry(s, e, net);
      ReadyEntry(s, saved, nets, i);
      if e.Fresh? {
        FirstFlagged(s, e.op, net, base);
      } else {
        ResumeFlagged(s, e.op, e.stage, net, base);
      }
      if !s1.crashed && Breaks(s, e, net) {
        SameFlagged(s1, RetryFrom(s, saved, nets, i), base);
      } else {
        PassFlagged(s1, saved, nets, i + 1, base);
      }
    }
  }

  lemma TaskFlagged(s: State, t: Task, nets: seq<Net>, base: nat)
    requires Settled(s) && !s.crashed && Flagged(s, base)
    requires t.Do? ==> t.op < |s.cells| && t.op !in s.hist.attempted
    ensures var s' := Perform(s, t, nets); !s'.crashed ==> Flagged(s', base)
  {
    match t
    case Do(op) => SubmitFlagged(s, op, NetAt(nets, 0), base);
    case Resubscribe =>
      var s2 := Cleared(s);
      assert Recent(s2) == [];
      SameFlagged(s, s2, base);
      ResubscribeFlagged(s2, s.established, nets, base);
    case Retry =>
      var s0 := s.(queue := []);
      ReadyStart(s);
      SameFlagged(s, s0, base);
      PassFlagged(s0, s.queue, nets, 0, base);
    case Disconnect =>
  }

  /** Between turns the flag is down. */
  lemma {:induction false} AlwaysLowered(events: seq<Event>)
    ensures !After(events).retryByError
  {
    if events != [] {
      AlwaysLowered(events[..|events| - 1]);
    }
  }

  lemma Lower(p: State, s': State)
    requires Tried(p) && s' == p.(retryByError := false)
    ensures Flagged(s', |s'.hist.attempted|)
  {
  }

  lemma TurnFlagged(s: State, nets: seq<Net>)
    requires Settled(s) && !s.crashed && s.tasks != [] && Flagged(s, |s.hist.attempted|)
    ensures var p := Perform(Popped(s), s.tasks[0], nets); !p.crashed ==> Flagged(p, |s.hist.attempted|)
  {
    SettledTask(s);
    SameFlagged(s, Popped(s), |s.hist.attempted|);
    TaskFlagged(Popped(s), s.tasks[0], nets, |s.hist.attempted|);
  }

  lemma StepFlagged(s: State, e: Event)
    requires Settled(s) && !s.crashed && Flagged(s, |s.hist.attempted|)
    ensures var s' := Step(s, e); !s'.crashed ==> Flagged(s', |s'.hist.attempted|)
  {
    if !e.LoopTurn? {
      SameFlagged(s, Step(s, e), |s.hist.attempted|);
    } else if s.tasks != [] {
      TurnFlagged(s, e.nets);
      var p := Perform(Popped(s), s.tasks[0], e.nets);
      if !p.crashed {
        Lower(p, Step(s, e));
      }
    }
  }

  lemma {:induction false} AlwaysFlagged(events: seq<Event>)
    ensures var s := After(events); !s.crashed ==> Flagged(s, |s.hist.attempted|)
  {
    if events != [] {
      var s := After(events[..|events| - 1]);
      AlwaysFlagged(events[..|events| - 1]);
      AlwaysSettled(events[..|events| - 1]);
      if !s.crashed {
        StepFlagged(s, events[|events| - 1]);
      }
    }
  }

  /**
   The connection is closed after a turn if and only if some operation whose first attempt
   was made in that turn failed it with a retryable error. Failing continuations do not count.
   */
  lemma ClosesExactly(events: seq<Event>, nets: seq<Net>)
    requires var s := After(events); !s.crashed && s.tasks != []
    ensures var s := After(events);
            var p := Perform(Popped(s), s.tasks[0], nets);
            !p.crashed ==> (p.retryByError <==> FailedSince(p, |s.hist.attempted|))
  {
    AlwaysFlagged(events);
    AlwaysSettled(events);
    TurnFlagged(After(events), nets);
  }
}
