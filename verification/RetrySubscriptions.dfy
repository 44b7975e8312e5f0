/**
 Resubscribe and the operations that wait behind it: what it conserves, and the exact
 condition under which it preserves what the caller asked for.
 */
module RetrySubscriptions {
  import opened Bytes
  import opened Subscriptions
  import opened Sender
  import opened RetryModel
  import opened RetryOrder
  import opened RetryBlocks
  import opened RetryEffects

  // ---- Counting topics ----

  /** How many entries of a topic an operation list leaves, one per Unsubscribe removed if present. */
  function Left(c: nat, ops: seq<Request>, t: Topic): nat {
    if ops == [] then c
    else
      var before := Left(c, ops[..|ops| - 1], t);
      match ops[|ops| - 1]
      case Pub(_) => before
      case Sub(subs) => before + Count(subs, t)
      case Unsub(topics) => if t in topics && before > 0 then before - 1 else before
  }

  /** Some Unsubscribe of the topic finds none left by the operations before it. */
  predicate Underflows(c: nat, ops: seq<Request>, t: Topic) {
    ops != [] &&
    (Underflows(c, ops[..|ops| - 1], t) ||
     (var last := ops[|ops| - 1]; last.Unsub? && t in last.topics && Left(c, ops[..|ops| - 1], t) == 0))
  }

  /**
   Starting with d more entries ends with at most d more, and with exactly d more if
   and only if d is zero or no Unsubscribe underflows.
   */
  lemma {:induction false} HeadStart(c: nat, d: nat, ops: seq<Request>, t: Topic)
    ensures Left(c, ops, t) <= Left(c + d, ops, t) <= Left(c, ops, t) + d
    ensures Left(c + d, ops, t) == Left(c, ops, t) + d <==> d == 0 || !Underflows(c, ops, t)
  {
    if ops != [] {
      HeadStart(c, d, ops[..|ops| - 1], t);
    }
  }

  function Requested(ops: seq<nat>, requests: seq<Request>): seq<Request>
    requires Below(ops, |requests|)
  {
    seq(|ops|, i requires 0 <= i < |ops| => requests[ops[i]])
  }

  predicate DistinctUnsubs(ops: seq<Request>) {
    forall i :: 0 <= i < |ops| && ops[i].Unsub? ==> NoDuplicates(ops[i].topics)
  }

  lemma {:induction false} ReplayCounts(list: seq<Subscription>, ops: seq<nat>, requests: seq<Request>, t: Topic)
    requires Below(ops, |requests|) && DistinctUnsubs(Requested(ops, requests))
    ensures Replay(list, ops, requests).Ok?
    ensures Count(Replay(list, ops, requests).value, t) == Left(Count(list, t), Requested(ops, requests), t)
  {
    if ops != [] {
      var ops' := ops[..|ops| - 1];
      var rs := Requested(ops, requests);
      assert rs[..|rs| - 1] == Requested(ops', requests);
      assert DistinctUnsubs(Requested(ops', requests)) by {
        assert forall i :: 0 <= i < |ops'| ==> Requested(ops', requests)[i] == rs[i];
      }
      ReplayCounts(list, ops', requests, t);
      var before := Replay(list, ops', requests).value;
      match rs[|rs| - 1]
      case Pub(_) =>
      case Sub(subs) => CountAppend(before, subs, t);
      case Unsub(topics) => RemovesOnePerTopic(before, topics);
    }
  }

  // ---- Resubscribe ----

  /** One request per saved subscription, under consecutive numbers. */
  function Singles(list: seq<Subscription>): seq<Request> {
    seq(|list|, i requires 0 <= i < |list| => Sub([list[i]]))
  }

  lemma SinglesOn(requests: seq<Request>, list: seq<Subscription>)
    requires list != []
    ensures (requests + [Sub([list[0]])]) + Singles(list[1..]) == requests + Singles(list)
  {
  }

  lemma {:induction false} ResubscribeRequests(s: State, saved: seq<Subscription>, nets: seq<Net>, i: nat)
    requires i <= |saved|
    ensures var s' := ResubscribeFrom(s, saved, nets, i);
            !s'.crashed ==> s'.hist.requests == s.hist.requests + Singles(saved[i..])
    decreases |saved| - i
  {
    if i == |saved| || s.crashed {
      assert Singles(saved[|saved|..]) == [];
    } else {
      ResubscribeRequests(ResubscribeOne(s, saved[i], NetAt(nets, i)), saved, nets, i + 1);
      assert saved[i..][1..] == saved[i + 1..];
      SinglesOn(s.hist.requests, saved[i..]);
    }
  }

  lemma {:induction false} LeftSingles(c: nat, ops: seq<Request>, list: seq<Subscription>, t: Topic)
    ensures Left(c, ops + Singles(list), t) == Left(c, ops, t) + Count(list, t)
  {
    if list == [] {
      assert ops + Singles(list) == ops;
    } else {
      var list', x := list[..|list| - 1], list[|list| - 1];
      var all := ops + Singles(list);
      assert all[..|all| - 1] == ops + Singles(list') && all[|all| - 1] == Sub([x]);
      LeftSingles(c, ops, list', t);
      assert list == list' + [x];
      CountAppend(list', [x], t);
      assert Left(c, all, t) == Left(c, ops + Singles(list'), t) + Count([x], t);
    }
  }

  /** The operations pending in a state, as requested. */
  function Pending(s: State): seq<Request>
    requires Linked(s)
  {
    FreshOpsBelow(s.queue, s);
    Requested(FreshOps(s.queue), s.hist.requests)
  }

  predicate NextIsResubscribe(s: State) {
    !s.crashed && s.tasks != [] && s.tasks[0] == Resubscribe
  }

  /** What a Resubscribe task issues: one new operation per established subscription, in order. */
  lemma ResubscribeTurn(s: State, nets: seq<Net>)
    requires Linked(s) && NextIsResubscribe(s)
    ensures var s' := Step(s, LoopTurn(nets));
            !s'.crashed ==>
              s'.hist.issued == s.hist.issued + Numbers(|s.cells|, |s.established|) &&
              s'.hist.requests == s.hist.requests + Singles(s.established) &&
              s'.hist.since == |s.hist.attempted|
  {
    var s1 := Popped(s);
    var s2 := Cleared(s1);
    ResubscribeIssues(s2, s1.established, nets);
    ResubscribeRequests(s2, s1.established, nets, 0);
    assert s1.established[0..] == s.established;
  }

  /** The state s' in which a Resubscribe task started in s has ended. */
  predicate Resubscribed(s: State, s': State)
    requires Linked(s) && Linked(s')
  {
    s'.hist.since <= |s'.hist.issued| && Below(s'.hist.issued, |s'.hist.requests|) &&
    Requested(s'.hist.issued[s'.hist.since..], s'.hist.requests) == Pending(s) + Singles(s.established) &&
    Prospect(s') == Replay([], s'.hist.issued[s'.hist.since..], s'.hist.requests)
  }

  lemma RequestedSince(s: State, s': State)
    requires Ordered(s) && !s.crashed && Below(s'.hist.issued, |s'.hist.requests|)
    requires s'.hist.issued == s.hist.issued + Numbers(|s.cells|, |s.established|)
    requires s'.hist.requests == s.hist.requests + Singles(s.established)
    ensures Requested(s'.hist.issued[|s.hist.attempted|..], s'.hist.requests) == Pending(s) + Singles(s.established)
  {
    var waiting, numbers := FreshOps(s.queue), Numbers(|s.cells|, |s.established|);
    FreshOpsBelow(s.queue, s);
    assert s'.hist.issued[|s.hist.attempted|..] == waiting + numbers;
    RequestedAppend(waiting, numbers, s'.hist.requests);
    assert Requested(waiting, s'.hist.requests) == Pending(s);
    assert Requested(numbers, s'.hist.requests) == Singles(s.established);
  }

  /** The operations issued since a Resubscribe task: those that were pending, then its own. */
  lemma IssuedSince(events: seq<Event>, nets: seq<Net>)
    requires NextIsResubscribe(After(events)) && !Step(After(events), LoopTurn(nets)).crashed
    ensures Resubscribed(After(events), Step(After(events), LoopTurn(nets)))
  {
    var s := After(events);
    var all := events + [LoopTurn(nets)];
    assert all[..|all| - 1] == events;
    AlwaysOrdered(events);
    EachAppliedOnce(all);
    ResubscribeTurn(s, nets);
    RequestedSince(s, After(all));
  }

  lemma ResubscribedCounts(s: State, s': State, t: Topic)
    requires Linked(s) && Linked(s') && Resubscribed(s, s') && DistinctUnsubs(Pending(s))
    ensures Prospect(s).Ok? && Prospect(s').Ok?
    ensures Count(Prospect(s).value, t) == Left(Count(s.established, t), Pending(s), t)
    ensures Count(Prospect(s').value, t) == Left(0, Pending(s), t) + Count(s.established, t)
  {
    FreshOpsBelow(s.queue, s);
    assert DistinctUnsubs(Pending(s) + Singles(s.established));
    ReplayCounts(s.established, FreshOps(s.queue), s.hist.requests, t);
    ReplayCounts([], s'.hist.issued[s'.hist.since..], s'.hist.requests, t);
    LeftSingles(0, Pending(s), s.established, t);
  }

  /** Resubscribe leaves the prospective number of entries of the topic as it was. */
  predicate KeepsTopic(s: State, s': State, t: Topic)
    requires Linked(s) && Linked(s') && Prospect(s).Ok? && Prospect(s').Ok?
  {
    Count(Prospect(s').value, t) == Count(Prospect(s).value, t)
  }

  /** The topic is not established, or no pending Unsubscribe of it needs an established entry. */
  predicate Covered(s: State, t: Topic)
    requires Linked(s)
  {
    Count(s.established, t) == 0 || !Underflows(0, Pending(s), t)
  }

  lemma KeptExactly(s: State, s': State, t: Topic)
    requires Linked(s) && Linked(s') && Resubscribed(s, s') && DistinctUnsubs(Pending(s))
    ensures Prospect(s).Ok? && Prospect(s').Ok?
    ensures Count(Prospect(s).value, t) <= Count(Prospect(s').value, t)
    ensures KeepsTopic(s, s', t) <==> Covered(s, t)
  {
    ResubscribedCounts(s, s', t);
    HeadStart(0, Count(s.established, t), Pending(s), t);
  }

  /**
   Resubscribe against pending operations. It never loses a topic the caller is to keep;
   and it leaves the prospective number of entries of a topic as it was if and only if
   no pending Unsubscribe of that topic would have had to take an established entry.
   */
  lemma ResubscribeExact(events: seq<Event>, nets: seq<Net>, t: Topic)
    requires NextIsResubscribe(After(events)) && !Step(After(events), LoopTurn(nets)).crashed
    requires DistinctUnsubs(Pending(After(events)))
    ensures var s, s' := After(events), Step(After(events), LoopTurn(nets));
            Prospect(s).Ok? && Prospect(s').Ok? &&
            Count(Prospect(s).value, t) <= Count(Prospect(s').value, t) &&
            (KeepsTopic(s, s', t) <==> Covered(s, t))
  {
    IssuedSince(events, nets);
    KeptExactly(After(events), Step(After(events), LoopTurn(nets)), t);
  }

  /** The failing family: a pending Unsubscribe of an established topic is undone. */
  lemma PendingUnsubscribeUndone(events: seq<Event>, nets: seq<Net>, t: Topic)
    requires NextIsResubscribe(After(events)) && !Step(After(events), LoopTurn(nets)).crashed
    requires Pending(After(events)) == [Unsub([t])] && Count(After(events).established, t) == 1
    ensures var s, s' := After(events), Step(After(events), LoopTurn(nets));
            Prospect(s).Ok? && Count(Prospect(s).value, t) == 0 &&
            Prospect(s').Ok? && Count(Prospect(s').value, t) == 1
  {
    IssuedSince(events, nets);
    var s := After(events);
    var u := Unsub([t]);
    assert [u][..|[u]| - 1] == [];
    assert Left(1, [u], t) == 0 && Left(0, [u], t) == 0 by {
      assert Left(1, [], t) == 1 && Left(0, [], t) == 0;
      assert t in u.topics;
    }
    ResubscribedCounts(s, Step(s, LoopTurn(nets)), t);
  }

  // ---- Conservation of entries, QoS included ----

  /** The subscriptions in pending Subscribe operations. */
  function PendingSubs(ops: seq<Request>): seq<Subscription> {
    if ops == [] then []
    else PendingSubs(ops[..|ops| - 1]) + if ops[|ops| - 1].Sub? then ops[|ops| - 1].subs else []
  }

  /** Established entries and those of pending Subscribe operations. */
  function Holdings(s: State): multiset<Subscription>
    requires Linked(s)
  {
    multiset(s.established) + multiset(PendingSubs(Pending(s)))
  }

  lemma {:induction false} PendingSingles(ops: seq<Request>, list: seq<Subscription>)
    ensures PendingSubs(ops + Singles(list)) == PendingSubs(ops) + list
  {
    if list == [] {
      assert ops + Singles(list) == ops;
    } else {
      var list', x := list[..|list| - 1], list[|list| - 1];
      var all := ops + Singles(list);
      assert all[..|all| - 1] == ops + Singles(list') && all[|all| - 1] == Sub([x]);
      PendingSingles(ops, list');
      assert list == list' + [x];
    }
  }

  lemma {:induction false} ReplaySubsOnly(list: seq<Subscription>, ops: seq<nat>, requests: seq<Request>)
    requires Below(ops, |requests|)
    requires forall i :: 0 <= i < |ops| ==> requests[ops[i]].Sub?
    ensures Replay(list, ops, requests) == Ok(list + PendingSubs(Requested(ops, requests)))
  {
    if ops == [] {
      assert list + [] == list;
    } else {
      var ops' := ops[..|ops| - 1];
      assert Requested(ops, requests)[..|ops| - 1] == Requested(ops', requests);
      ReplaySubsOnly(list, ops', requests);
      var last := requests[ops[|ops| - 1]];
      Associate(list, PendingSubs(Requested(ops', requests)), last.subs);
      assert PendingSubs(Requested(ops, requests)) == PendingSubs(Requested(ops', requests)) + last.subs;
    }
  }

  /**
   A Resubscribe task keeps every entry, with its QoS: what it clears from the list it
   puts back or leaves pending, over any pattern of failures.
   */
  lemma ResubscribeConserves(events: seq<Event>, nets: seq<Net>)
    requires NextIsResubscribe(After(events)) && !Step(After(events), LoopTurn(nets)).crashed
    ensures Holdings(Step(After(events), LoopTurn(nets))) == Holdings(After(events))
  {
    var s := After(events);
    var all := events + [LoopTurn(nets)];
    assert all[..|all| - 1] == events;
    var s' := After(all);
    AlwaysOrdered(events);
    AlwaysOrdered(all);
    AlwaysEffective(all);
    ResubscribeTurn(s, nets);
    RequestedSince(s, s');
    assert s.queue != [] ==> s'.hist.attempted == s.hist.attempted by {
      if s.queue != [] {
        StalledUntilRetry(s, LoopTurn(nets));
      }
    }
    HoldingsKept(s, s');
  }

  /** Behind a waiting queue everything cleared is left pending. */
  lemma HoldingsQueued(s: State, s': State)
    requires Linked(s) && Linked(s') && s'.established == []
    requires Pending(s') == Pending(s) + Singles(s.established)
    ensures Holdings(s') == Holdings(s)
  {
    PendingSingles(Pending(s), s.established);
  }

  /** From an empty queue, what is tried is established and the rest is left pending. */
  lemma HoldingsTried(s: State, s': State, tried: seq<nat>, waiting: seq<nat>)
    requires Linked(s) && Linked(s') && Pending(s) == []
    requires Below(tried, |s'.hist.requests|) && Below(waiting, |s'.hist.requests|)
    requires Replay([], tried, s'.hist.requests) == Ok(s'.established)
    requires Pending(s') == Requested(waiting, s'.hist.requests)
    requires Requested(tried, s'.hist.requests) + Requested(waiting, s'.hist.requests) == Singles(s.established)
    ensures Holdings(s') == Holdings(s)
  {
    var a, b := Requested(tried, s'.hist.requests), Requested(waiting, s'.hist.requests);
    forall i | 0 <= i < |tried| ensures s'.hist.requests[tried[i]].Sub? {
      assert (a + b)[i] == Singles(s.established)[i];
    }
    ReplaySubsOnly([], tried, s'.hist.requests);
    assert [] + PendingSubs(a) == PendingSubs(a);
    SplitSingles(a, b, s.established);
  }

  lemma SplitSingles(a: seq<Request>, b: seq<Request>, list: seq<Subscription>)
    requires a + b == Singles(list)
    ensures PendingSubs(a) + PendingSubs(b) == list
  {
    PendingAppend(a, b);
    PendingSingles([], list);
    assert [] + Singles(list) == Singles(list) && PendingSubs([]) + list == list;
  }

  lemma {:induction false} PendingAppend(a: seq<Request>, b: seq<Request>)
    ensures PendingSubs(a + b) == PendingSubs(a) + PendingSubs(b)
  {
    if b == [] {
      assert a + b == a;
    } else {
      var b', r := b[..|b| - 1], b[|b| - 1];
      var last := if r.Sub? then r.subs else [];
      assert (a + b)[..|a + b| - 1] == a + b' && (a + b)[|a + b| - 1] == r;
      PendingAppend(a, b');
      Associate(PendingSubs(a), PendingSubs(b'), last);
    }
  }

  lemma HoldingsKept(s: State, s': State)
    requires Ordered(s) && Ordered(s') && !s.crashed && !s'.crashed && Effective(s')
    requires s'.hist.since == |s.hist.attempted|
    requires s.queue != [] ==> s'.hist.attempted == s.hist.attempted
    requires Requested(s'.hist.issued[s'.hist.since..], s'.hist.requests) == Pending(s) + Singles(s.established)
    ensures Holdings(s') == Holdings(s)
  {
    var tried, waiting := Recent(s'), FreshOps(s'.queue);
    FreshOpsBelow(s'.queue, s');
    var since := s'.hist.issued[s'.hist.since..];
    assert since == tried + waiting;
    if s.queue == [] {
      assert Pending(s) == [];
      RequestedAppend(tried, waiting, s'.hist.requests);
      HoldingsTried(s, s', tried, waiting);
    } else {
      assert tried == [] && since == waiting;
      HoldingsQueued(s, s');
    }
  }

  lemma RequestedAppend(a: seq<nat>, b: seq<nat>, requests: seq<Request>)
    requires Below(a, |requests|) && Below(b, |requests|)
    ensures Below(a + b, |requests|)
    ensures Requested(a + b, requests) == Requested(a, requests) + Requested(b, requests)
  {
  }

  // ---- What a Resubscribe does, for any pending operations ----

  lemma {:induction false} ReplayFails(list: seq<Subscription>, a: seq<nat>, b: seq<nat>, requests: seq<Request>)
    requires Below(a, |requests|) && Below(b, |requests|) && !Replay(list, a, requests).Ok?
    ensures Below(a + b, |requests|) && !Replay(list, a + b, requests).Ok?
  {
    if b == [] {
      assert a + b == a;
    } else {
      var b' := b[..|b| - 1];
      assert (a + b)[..|a + b| - 1] == a + b';
      ReplayFails(list, a, b', requests);
    }
  }

  /** Operations followed by a Subscribe for each entry of a list. */
  lemma MovedBehind(waiting: seq<nat>, numbers: seq<nat>, requests: seq<Request>, list: seq<Subscription>)
    requires Below(waiting, |requests|) && Below(numbers, |requests|) && Requested(numbers, requests) == Singles(list)
    ensures Below(waiting + numbers, |requests|)
    ensures var p, r := Replay([], waiting, requests), Replay([], waiting + numbers, requests);
            if p.Ok? then r == Ok(p.value + list) else !r.Ok?
  {
    var p := Replay([], waiting, requests);
    if p.Ok? {
      ReplayAppend([], waiting, numbers, requests);
      forall i | 0 <= i < |numbers| ensures requests[numbers[i]].Sub? {
        assert Requested(numbers, requests)[i] == Singles(list)[i];
      }
      ReplaySubsOnly(p.value, numbers, requests);
      PendingSingles([], list);
      assert [] + Singles(list) == Singles(list) && PendingSubs([]) + list == list;
    } else {
      ReplayFails([], waiting, numbers, requests);
    }
  }

  /** The list to come is what the pending operations make of an empty list, followed by the established entries. */
  predicate Moved(s: State, s': State)
    requires Linked(s) && Linked(s')
  {
    FreshOpsBelow(s.queue, s);
    var alone := Replay([], FreshOps(s.queue), s.hist.requests);
    if alone.Ok? then Prospect(s') == Ok(alone.value + s.established) else !Prospect(s').Ok?
  }

  lemma MovedSince(s: State, s': State)
    requires Ordered(s) && !s.crashed && Linked(s') && Resubscribed(s, s')
    requires s'.hist.since == |s.hist.attempted|
    requires s'.hist.issued == s.hist.issued + Numbers(|s.cells|, |s.established|)
    requires s'.hist.requests == s.hist.requests + Singles(s.established)
    ensures Moved(s, s')
  {
    var waiting, numbers := FreshOps(s.queue), Numbers(|s.cells|, |s.established|);
    FreshOpsBelow(s.queue, s);
    ReplayMore([], waiting, s.hist.requests, Singles(s.established));
    assert Requested(numbers, s'.hist.requests) == Singles(s.established);
    assert s'.hist.issued[s'.hist.since..] == waiting + numbers;
    MovedBehind(waiting, numbers, s'.hist.requests, s.established);
  }

  /** A Resubscribe moves the established entries behind the pending operations, whatever these are. */
  lemma ResubscribeMoves(events: seq<Event>, nets: seq<Net>)
    requires NextIsResubscribe(After(events)) && !Step(After(events), LoopTurn(nets)).crashed
    ensures Moved(After(events), Step(After(events), LoopTurn(nets)))
  {
    AlwaysOrdered(events);
    IssuedSince(events, nets);
    ResubscribeTurn(After(events), nets);
    MovedSince(After(events), Step(After(events), LoopTurn(nets)));
  }
}
