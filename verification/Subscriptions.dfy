/**
 The list of established subscriptions (subscriptions.go): appending on
 subscribe, and removal on unsubscribe by swapping with the last live slot.
 */
module Subscriptions {
  import opened Bytes
  import opened Messages

  type Topic = seq<byte>

  datatype Subscription = Subscription(topic: Topic, qos: byte)

  // ---- What fits into a SUBSCRIBE or UNSUBSCRIBE packet ----

  function SubscribeLength(subs: seq<Subscription>): nat {
    if subs == [] then 2 else 3 + |subs[0].topic| + SubscribeLength(subs[1..])
  }

  function UnsubscribeLength(topics: seq<Topic>): nat {
    if topics == [] then 2 else 2 + |topics[0]| + UnsubscribeLength(topics[1..])
  }

  predicate Subscribable(subs: seq<Subscription>) {
    forall i :: 0 <= i < |subs| ==> subs[i].qos <= 2 && |subs[i].topic| <= 0xFFFF
  }

  predicate Packable(topics: seq<Topic>) {
    forall i :: 0 <= i < |topics| ==> |topics[i]| <= 0xFFFF
  }

  predicate SubscribeFits(subs: seq<Subscription>) {
    Subscribable(subs) && SubscribeLength(subs) <= MAX_REMAINING
  }

  predicate UnsubscribeFits(topics: seq<Topic>) {
    Packable(topics) && UnsubscribeLength(topics) <= MAX_REMAINING
  }

  // ---- The removal as the code does it: memory slots and a live length ----

  /** Index of the first slot with the topic, or the number of slots. */
  function FirstIndex(mem: seq<Subscription>, topic: Topic): (i: nat)
    ensures i <= |mem|
    ensures i < |mem| ==> mem[i].topic == topic
    ensures forall j :: 0 <= j < i ==> mem[j].topic != topic
  {
    if mem == [] then 0
    else if mem[0].topic == topic then 0
    else 1 + FirstIndex(mem[1..], topic)
  }

  datatype Slots = Slots(mem: seq<Subscription>, live: nat)

  /** One pass of the outer loop; the scan covers every slot, live or stale. */
  function RemoveOne(s: Slots, topic: Topic): Outcome<Slots> {
    var i := FirstIndex(s.mem, topic);
    if i == |s.mem| then Ok(s)
    else if s.live == 0 || s.live > |s.mem| then Panic
    else Ok(Slots(s.mem[i := s.mem[s.live - 1]], s.live - 1))
  }

  function RemoveEach(s: Slots, topics: seq<Topic>): Outcome<Slots>
    decreases topics
  {
    if topics == [] then Ok(s)
    else
      match RemoveOne(s, topics[0])
      case Ok(s') => RemoveEach(s', topics[1..])
      case Err(e) => Err(e)
      case Panic => Panic
  }

  /** The list after `unsubscriptions(topics).applyTo(&list)`, or a panic. */
  function Unsubscribed(list: seq<Subscription>, topics: seq<Topic>): Outcome<seq<Subscription>> {
    match RemoveEach(Slots(list, |list|), topics)
    case Ok(s) => if s.live <= |s.mem| then Ok(s.mem[..s.live]) else Panic
    case Err(e) => Err(e)
    case Panic => Panic
  }

  // ---- What removal should mean ----

  function Count(list: seq<Subscription>, topic: Topic): nat {
    if list == [] then 0
    else (if list[0].topic == topic then 1 else 0) + Count(list[1..], topic)
  }

  /** Reference removal: drop the first entry of the topic, keep the order. */
  function Without(list: seq<Subscription>, topic: Topic): (r: seq<Subscription>)
    ensures |r| == if Count(list, topic) == 0 then |list| else |list| - 1
  {
    if list == [] then []
    else if list[0].topic == topic then list[1..]
    else [list[0]] + Without(list[1..], topic)
  }

  function WithoutEach(list: seq<Subscription>, topics: seq<Topic>): seq<Subscription>
    decreases topics
  {
    if topics == [] then list else WithoutEach(Without(list, topics[0]), topics[1..])
  }

  lemma {:induction false} CountAppend(a: seq<Subscription>, b: seq<Subscription>, t: Topic)
    ensures Count(a + b, t) == Count(a, t) + Count(b, t)
  {
    if a == [] {
      assert a + b == b;
    } else {
      assert (a + b)[1..] == a[1..] + b;
      CountAppend(a[1..], b, t);
    }
  }

  lemma {:induction false} CountUpdate(a: seq<Subscription>, i: nat, x: Subscription, t: Topic)
    requires i < |a|
    ensures Count(a[i := x], t) + Count([a[i]], t) == Count(a, t) + Count([x], t)
  {
    assert a == a[..i] + ([a[i]] + a[i + 1..]);
    assert a[i := x] == a[..i] + ([x] + a[i + 1..]);
    CountAppend(a[..i], [a[i]] + a[i + 1..], t);
    CountAppend(a[..i], [x] + a[i + 1..], t);
    CountAppend([a[i]], a[i + 1..], t);
    CountAppend([x], a[i + 1..], t);
  }

  /** A topic is counted exactly when it occurs. */
  lemma {:induction false} CountZero(a: seq<Subscription>, t: Topic)
    ensures Count(a, t) == 0 <==> forall i :: 0 <= i < |a| ==> a[i].topic != t
  {
    if a != [] {
      CountZero(a[1..], t);
      assert forall i :: 1 <= i < |a| ==> a[i] == a[1..][i - 1];
    }
  }

  lemma {:induction false} CountWithout(list: seq<Subscription>, u: Topic, t: Topic)
    ensures Count(Without(list, u), t)
            == if t == u && Count(list, u) > 0 then Count(list, t) - 1 else Count(list, t)
  {
    if list != [] {
      CountWithout(list[1..], u, t);
      if list[0].topic != u {
        assert ([list[0]] + Without(list[1..], u))[1..] == Without(list[1..], u);
      }
    }
  }

  // ---- When the two agree ----

  /** The scan for the topic does not stop at a slot past the live length. */
  predicate HitsLive(s: Slots, topic: Topic) {
    var i := FirstIndex(s.mem, topic);
    i < |s.mem| ==> i < s.live
  }

  /** No pass of the removal takes a stale slot for a live one. */
  predicate NeverStale(s: Slots, topics: seq<Topic>)
    decreases topics
  {
    topics == [] ||
    (HitsLive(s, topics[0]) &&
     match RemoveOne(s, topics[0])
     case Ok(s') => NeverStale(s', topics[1..])
     case _ => false)
  }

  /** The live slots have, topic by topic, as many entries as the reference list. */
  ghost predicate Same(s: Slots, ideal: seq<Subscription>) {
    s.live <= |s.mem| && s.live == |ideal| &&
    forall t :: Count(s.mem[..s.live], t) == Count(ideal, t)
  }

  lemma CountOne(x: Subscription, t: Topic)
    ensures Count([x], t) == if x.topic == t then 1 else 0
  {
    assert [x][1..] == [];
  }

  /** Overwriting slot i with the last one and dropping the last takes exactly slot i out. */
  lemma SwapRemoveBag(live: seq<Subscription>, i: nat)
    requires i < |live|
    ensures multiset(live[i := live[|live| - 1]][..|live| - 1]) <= multiset(live)
  {
    var l := |live| - 1;
    var last := live[l];
    var swapped := live[i := last];
    var r := swapped[..l];
    assert swapped == r + [last];
    assert multiset(swapped) == multiset(r) + multiset{last};
    var d := multiset(live) - multiset{live[i]};
    assert multiset(swapped) == d + multiset{last};
    assert multiset(r) == (multiset(r) + multiset{last}) - multiset{last};
    assert d == (d + multiset{last}) - multiset{last};
  }

  lemma SwapRemoveCount(live: seq<Subscription>, i: nat, t: Topic)
    requires i < |live|
    ensures Count(live[i := live[|live| - 1]][..|live| - 1], t)
            == if live[i].topic == t then Count(live, t) - 1 else Count(live, t)
  {
    var l := |live| - 1;
    var swapped := live[i := live[l]];
    assert swapped == swapped[..l] + [live[l]];
    CountUpdate(live, i, live[l], t);
    CountAppend(swapped[..l], [live[l]], t);
    CountOne(live[i], t);
  }

  lemma LiveStep(s: Slots, u: Topic, ideal: seq<Subscription>)
    requires Same(s, ideal) && HitsLive(s, u)
    ensures RemoveOne(s, u).Ok? && Same(RemoveOne(s, u).value, Without(ideal, u))
    ensures var s' := RemoveOne(s, u).value;
            multiset(s'.mem[..s'.live]) <= multiset(s.mem[..s.live])
  {
    var i := FirstIndex(s.mem, u);
    var live := s.mem[..s.live];
    CountZero(live, u);
    if i == |s.mem| {
      assert Count(live, u) == 0;
      forall t ensures Count(Without(ideal, u), t) == Count(live, t) { CountWithout(ideal, u, t); }
    } else {
      var l := s.live - 1;
      assert live[i].topic == u && Count(ideal, u) > 0;
      var r := RemoveOne(s, u).value.mem[..l];
      assert r == live[i := live[l]][..l];
      forall t ensures Count(Without(ideal, u), t) == Count(r, t) {
        CountWithout(ideal, u, t);
        SwapRemoveCount(live, i, t);
      }
      SwapRemoveBag(live, i);
    }
  }

  /** After a stale hit the code has dropped one entry too many, and that never heals. */
  ghost predicate Short(s: Slots, ideal: seq<Subscription>) {
    s.live <= |s.mem| && s.live < |ideal| && forall t :: Count(ideal, t) <= Count(s.mem, t)
  }

  lemma {:induction false} CountPrefix(a: seq<Subscription>, n: nat, t: Topic)
    requires n <= |a|
    ensures Count(a[..n], t) <= Count(a, t)
  {
    assert a == a[..n] + a[n..];
    CountAppend(a[..n], a[n..], t);
  }

  lemma StaleStep(s: Slots, u: Topic, ideal: seq<Subscription>)
    requires Same(s, ideal) && !HitsLive(s, u)
    ensures RemoveOne(s, u).Ok? ==> Short(RemoveOne(s, u).value, Without(ideal, u))
  {
    var i := FirstIndex(s.mem, u);
    CountZero(s.mem[..s.live], u);
    assert Count(ideal, u) == 0;
    if s.live > 0 {
      forall t ensures Count(Without(ideal, u), t) <= Count(s.mem[i := s.mem[s.live - 1]], t) {
        CountWithout(ideal, u, t);
        CountUpdate(s.mem, i, s.mem[s.live - 1], t);
        CountPrefix(s.mem, s.live, t);
      }
    }
  }

  lemma ShortStep(s: Slots, u: Topic, ideal: seq<Subscription>)
    requires Short(s, ideal)
    ensures RemoveOne(s, u).Ok? ==> Short(RemoveOne(s, u).value, Without(ideal, u))
  {
    var i := FirstIndex(s.mem, u);
    CountZero(s.mem, u);
    CountWithout(ideal, u, u);
    if i == |s.mem| {
      assert Count(ideal, u) == 0;
      forall t ensures Count(Without(ideal, u), t) <= Count(s.mem, t) { CountWithout(ideal, u, t); }
    } else if s.live > 0 {
      forall t ensures Count(Without(ideal, u), t) <= Count(s.mem[i := s.mem[s.live - 1]], t) {
        CountWithout(ideal, u, t);
        CountUpdate(s.mem, i, s.mem[s.live - 1], t);
      }
    }
  }

  lemma {:induction false} CleanRun(s: Slots, topics: seq<Topic>, ideal: seq<Subscription>)
    requires Same(s, ideal) && NeverStale(s, topics)
    ensures RemoveEach(s, topics).Ok? && Same(RemoveEach(s, topics).value, WithoutEach(ideal, topics))
    ensures var s' := RemoveEach(s, topics).value;
            multiset(s'.mem[..s'.live]) <= multiset(s.mem[..s.live])
    decreases topics
  {
    if topics != [] {
      LiveStep(s, topics[0], ideal);
      CleanRun(RemoveOne(s, topics[0]).value, topics[1..], Without(ideal, topics[0]));
    }
  }

  lemma {:induction false} ShortRun(s: Slots, topics: seq<Topic>, ideal: seq<Subscription>)
    requires Short(s, ideal)
    ensures RemoveEach(s, topics).Ok? ==> Short(RemoveEach(s, topics).value, WithoutEach(ideal, topics))
    decreases topics
  {
    if topics != [] {
      ShortStep(s, topics[0], ideal);
      if RemoveOne(s, topics[0]).Ok? {
        ShortRun(RemoveOne(s, topics[0]).value, topics[1..], Without(ideal, topics[0]));
      }
    }
  }

  lemma {:induction false} StaleRun(s: Slots, topics: seq<Topic>, ideal: seq<Subscription>)
    requires Same(s, ideal) && !NeverStale(s, topics)
    ensures RemoveEach(s, topics).Ok? ==> Short(RemoveEach(s, topics).value, WithoutEach(ideal, topics))
    decreases topics
  {
    if HitsLive(s, topics[0]) {
      LiveStep(s, topics[0], ideal);
      StaleRun(RemoveOne(s, topics[0]).value, topics[1..], Without(ideal, topics[0]));
    } else {
      StaleStep(s, topics[0], ideal);
      if RemoveOne(s, topics[0]).Ok? {
        ShortRun(RemoveOne(s, topics[0]).value, topics[1..], Without(ideal, topics[0]));
      }
    }
  }

  /**
   The in-place removal keeps exactly the entries the reference removal keeps,
   counted per topic, if and only if no pass stops at a stale slot. When one
   does, the code panics or returns a strictly shorter list.
   */
  lemma RemovalExact(list: seq<Subscription>, topics: seq<Topic>)
    ensures var r := Unsubscribed(list, topics);
            var ideal := WithoutEach(list, topics);
            (NeverStale(Slots(list, |list|), topics) <==>
             r.Ok? && |r.value| == |ideal| && forall t :: Count(r.value, t) == Count(ideal, t))
    ensures var r := Unsubscribed(list, topics);
            r.Ok? && !NeverStale(Slots(list, |list|), topics) ==> |r.value| < |WithoutEach(list, topics)|
    ensures NeverStale(Slots(list, |list|), topics) ==>
            multiset(Unsubscribed(list, topics).value) <= multiset(list)
  {
    var s := Slots(list, |list|);
    assert list[..|list|] == list;
    if NeverStale(s, topics) {
      CleanRun(s, topics, list);
    } else {
      StaleRun(s, topics, list);
    }
  }

  // ---- Distinct topics never meet a stale slot ----

  /** Every stale slot holds a topic that was already removed or is still live. */
  ghost predicate StaleAccounted(s: Slots, done: set<Topic>) {
    s.live <= |s.mem| &&
    forall j :: s.live <= j < |s.mem| ==>
      s.mem[j].topic in done || exists i :: 0 <= i < s.live && s.mem[i].topic == s.mem[j].topic
  }

  lemma AccountedStep(s: Slots, u: Topic, done: set<Topic>)
    requires StaleAccounted(s, done) && u !in done
    ensures HitsLive(s, u)
    ensures RemoveOne(s, u).Ok? && StaleAccounted(RemoveOne(s, u).value, done + {u})
  {
    var i := FirstIndex(s.mem, u);
    if i < |s.mem| {
      var s' := RemoveOne(s, u).value;
      var l := s.live - 1;
      forall j | l <= j < |s'.mem|
        ensures s'.mem[j].topic in done + {u}
                || exists k :: 0 <= k < l && s'.mem[k].topic == s'.mem[j].topic
      {
        if j == l {
          if i != l {
            assert s'.mem[i].topic == s'.mem[j].topic;
          }
        } else if s.mem[j].topic !in done && s.mem[j].topic != u {
          var k :| 0 <= k < s.live && s.mem[k].topic == s.mem[j].topic;
          if k == l {
            assert s'.mem[i].topic == s'.mem[j].topic;
          } else {
            assert s'.mem[k].topic == s'.mem[j].topic;
          }
        }
      }
    }
  }

  lemma {:induction false} DistinctNeverStale(s: Slots, topics: seq<Topic>, done: set<Topic>)
    requires StaleAccounted(s, done) && NoDuplicates(topics)
    requires forall i :: 0 <= i < |topics| ==> topics[i] !in done
    ensures NeverStale(s, topics)
    decreases topics
  {
    if topics != [] {
      AccountedStep(s, topics[0], done);
      DistinctNeverStale(RemoveOne(s, topics[0]).value, topics[1..], done + {topics[0]});
    }
  }

  lemma {:induction false} CountWithoutEach(list: seq<Subscription>, topics: seq<Topic>, t: Topic)
    requires NoDuplicates(topics)
    ensures Count(WithoutEach(list, topics), t)
            == if t in topics && Count(list, t) > 0 then Count(list, t) - 1 else Count(list, t)
    decreases topics
  {
    if topics != [] {
      CountWithout(list, topics[0], t);
      CountWithoutEach(Without(list, topics[0]), topics[1..], t);
    }
  }

  /**
   For any list and any distinct topics the removal does not panic, invents
   nothing, and takes exactly one entry for each topic present.
   */
  lemma RemovesOnePerTopic(list: seq<Subscription>, topics: seq<Topic>)
    requires NoDuplicates(topics)
    ensures var r := Unsubscribed(list, topics);
            r.Ok? && multiset(r.value) <= multiset(list) &&
            forall t :: Count(r.value, t)
              == if t in topics && Count(list, t) > 0 then Count(list, t) - 1 else Count(list, t)
  {
    DistinctNeverStale(Slots(list, |list|), topics, {});
    RemovalExact(list, topics);
    forall t
      ensures Count(WithoutEach(list, topics), t)
              == if t in topics && Count(list, t) > 0 then Count(list, t) - 1 else Count(list, t)
    {
      CountWithoutEach(list, topics, t);
    }
  }

  // ---- Distinct list topics: removal is filtering ----

  function Filtered(list: seq<Subscription>, topics: seq<Topic>): seq<Subscription> {
    if list == [] then []
    else (if list[0].topic in topics then [] else [list[0]]) + Filtered(list[1..], topics)
  }

  ghost predicate DistinctTopics(list: seq<Subscription>) {
    forall i, j :: 0 <= i < j < |list| ==> list[i].topic != list[j].topic
  }

  lemma {:induction false} FilteredMembers(list: seq<Subscription>, topics: seq<Topic>, x: Subscription)
    ensures multiset(Filtered(list, topics))[x] == if x.topic in topics then 0 else multiset(list)[x]
  {
    if list != [] {
      FilteredMembers(list[1..], topics, x);
      assert list == [list[0]] + list[1..];
    }
  }

  lemma {:induction false} OccurrencesWithinCount(list: seq<Subscription>, x: Subscription)
    ensures multiset(list)[x] <= Count(list, x.topic)
  {
    if list != [] {
      OccurrencesWithinCount(list[1..], x);
      assert list == [list[0]] + list[1..];
    }
  }

  lemma DistinctCount(list: seq<Subscription>, t: Topic)
    requires DistinctTopics(list)
    ensures Count(list, t) <= 1
  {
    if list != [] {
      DistinctCount(list[1..], t);
      CountZero(list[1..], t);
    }
  }

  lemma {:induction false} CountFiltered(list: seq<Subscription>, topics: seq<Topic>, t: Topic)
    ensures Count(Filtered(list, topics), t) == if t in topics then 0 else Count(list, t)
  {
    if list != [] {
      CountFiltered(list[1..], topics, t);
      CountAppend(if list[0].topic in topics then [] else [list[0]], Filtered(list[1..], topics), t);
    }
  }

  /** Taking one occurrence of x out of a list. */
  lemma TakeOut(b: seq<Subscription>, x: Subscription) returns (b': seq<Subscription>)
    requires x in b
    ensures multiset(b) == multiset(b') + multiset{x}
    ensures forall t :: Count(b, t) == Count(b', t) + Count([x], t)
  {
    var k :| 0 <= k < |b| && b[k] == x;
    b' := b[..k] + b[k + 1..];
    assert b == b[..k] + ([x] + b[k + 1..]);
    forall t ensures Count(b, t) == Count(b', t) + Count([x], t) {
      CountAppend(b[..k], [x] + b[k + 1..], t);
      CountAppend([x], b[k + 1..], t);
      CountAppend(b[..k], b[k + 1..], t);
    }
  }

  /** A sub-multiset with the same number of entries per topic is the whole multiset. */
  lemma {:induction false} SameCountsSameBag(a: seq<Subscription>, b: seq<Subscription>)
    requires multiset(a) <= multiset(b)
    requires forall t :: Count(a, t) == Count(b, t)
    ensures multiset(a) == multiset(b)
    decreases |a|
  {
    if a == [] {
      if b != [] {
        var c := Count(b, b[0].topic);
        assert false;
      }
    } else {
      var x := a[0];
      assert a == [x] + a[1..];
      assert x in multiset(b);
      var b' := TakeOut(b, x);
      assert multiset(a) == multiset{x} + multiset(a[1..]);
      forall y ensures multiset(a[1..])[y] <= multiset(b')[y] {
        assert multiset(a)[y] <= multiset(b)[y];
      }
      forall t ensures Count(a[1..], t) == Count(b', t) {
        CountAppend([x], a[1..], t);
      }
      SameCountsSameBag(a[1..], b');
    }
  }

  lemma RemovalIsFiltering(list: seq<Subscription>, topics: seq<Topic>)
    requires NoDuplicates(topics) && DistinctTopics(list)
    ensures Unsubscribed(list, topics).Ok?
    ensures multiset(Unsubscribed(list, topics).value) == multiset(Filtered(list, topics))
  {
    RemovesOnePerTopic(list, topics);
    var r := Unsubscribed(list, topics).value;
    forall t ensures Count(r, t) == Count(Filtered(list, topics), t) {
      DistinctCount(list, t);
      CountFiltered(list, topics, t);
    }
    var f := multiset(Filtered(list, topics));
    forall x ensures multiset(r)[x] <= f[x] {
      FilteredMembers(list, topics, x);
      CountFiltered(list, topics, x.topic);
      OccurrencesWithinCount(r, x);
    }
    assert multiset(r) <= f;
    SameCountsSameBag(r, Filtered(list, topics));
  }

  /** With distinct topics, every entry of a topic that is not named stays, with its QoS and as often as before. */
  lemma RemovalKeepsOthers(list: seq<Subscription>, topics: seq<Topic>, x: Subscription)
    requires NoDuplicates(topics) && x.topic !in topics
    ensures Unsubscribed(list, topics).Ok?
    ensures multiset(Unsubscribed(list, topics).value)[x] == multiset(list)[x]
  {
    RemovesOnePerTopic(list, topics);
    var r := Unsubscribed(list, topics).value;
    var fr, fl := Filtered(r, topics), Filtered(list, topics);
    forall y ensures multiset(fr)[y] <= multiset(fl)[y] {
      FilteredMembers(r, topics, y);
      FilteredMembers(list, topics, y);
    }
    forall t ensures Count(fr, t) == Count(fl, t) {
      CountFiltered(r, topics, t);
      CountFiltered(list, topics, t);
    }
    SameCountsSameBag(fr, fl);
    FilteredMembers(r, topics, x);
    FilteredMembers(list, topics, x);
  }

  /** Naming a topic twice can drop an unrelated subscription. */
  lemma RepeatedTopicOverRemoves(a: Topic, b: Topic)
    requires a != b
    ensures var list := [Subscription(a, 0), Subscription(b, 0)];
            Unsubscribed(list, [b, b]) == Ok([]) && WithoutEach(list, [b, b]) == [list[0]]
    ensures Unsubscribed([Subscription(b, 0)], [b, b]) == Panic
  {
    var x, y := Subscription(a, 0), Subscription(b, 0);
    var list := [x, y];
    assert list[1..] == [y];
    assert FirstIndex(list, b) == 1;
    assert [b, b][1..] == [b] && [b][1..] == [];
    assert list[1 := y] == list && list[1 := x] == [x, x];
    assert RemoveOne(Slots(list, 2), b) == Ok(Slots(list, 1));
    assert RemoveOne(Slots(list, 1), b) == Ok(Slots([x, x], 0));
    assert RemoveEach(Slots([x, x], 0), []) == Ok(Slots([x, x], 0));
    assert RemoveEach(Slots(list, 1), [b]) == Ok(Slots([x, x], 0));
    assert RemoveEach(Slots(list, 2), [b, b]) == Ok(Slots([x, x], 0));
    assert Without([y], b) == [];
    assert Without(list, b) == [x];
    assert [x][1..] == [];
    assert Without([x], b) == [x];
    assert WithoutEach([x], []) == [x];
    assert WithoutEach([x], [b]) == [x];
    assert [y][0 := y] == [y];
    assert RemoveOne(Slots([y], 1), b) == Ok(Slots([y], 0));
    assert RemoveOne(Slots([y], 0), b) == Panic;
    assert RemoveEach(Slots([y], 0), [b]) == Panic;
  }

  // ---- The in-place loops ----

  /** `unsubscriptions.applyTo`: the first `l` slots of `d` are the new list. */
  method RemoveInPlace(d: array<Subscription>, topics: seq<Topic>) returns (l: int, ok: bool)
    modifies d
    ensures ok <==> Unsubscribed(old(d[..]), topics).Ok?
    ensures ok ==> 0 <= l <= d.Length && Ok(d[..l]) == Unsubscribed(old(d[..]), topics)
  {
    l, ok := d.Length, true;
    var k := 0;
    while k < |topics|
      invariant 0 <= k <= |topics| && 0 <= l <= d.Length
      invariant RemoveEach(Slots(old(d[..]), d.Length), topics)
                == RemoveEach(Slots(d[..], l), topics[k..])
    {
      assert topics[k..][1..] == topics[k + 1..];
      var i := 0;
      while i < d.Length && d[i].topic != topics[k]
        invariant 0 <= i <= d.Length
        invariant forall j :: 0 <= j < i ==> d[j].topic != topics[k]
      {
        i := i + 1;
      }
      assert i == FirstIndex(d[..], topics[k]);
      if i < d.Length {
        l := l - 1;
        if l < 0 {
          ok := false;
          return;
        }
        ghost var before := d[..];
        d[i] := d[l];
        assert d[..] == before[i := before[l]];
      }
      k := k + 1;
    }
    assert topics[k..] == [];
  }
}
