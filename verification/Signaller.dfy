/**
 Routing of acknowledgements (client.go, with the registrations made in publish.go,
 subscribe.go and unsubscribe.go). The five maps of the source are one map here, keyed
 by kind and packet identifier.
 */
module Signaller {
  import opened Bytes
  import opened Matching

  datatype Kind = PubAck | PubRec | PubComp | SubAck | UnsubAck

  datatype Key = Key(kind: Kind, id: uint16)

  datatype Ack = Ack(id: uint16, codes: seq<byte>)

  // ---- Whole histories ----

  /**
   Registrations open a key, acknowledgements close it. A waiter is named by the moment of
   its registration. `full`: channels holding an acknowledgement, which no waiter has to take out
   for the results below; `sent`: which waiter got which arrival; `lost`: arrivals that
   found a waiter whose channel was full.
   */
  datatype Routing = Routing(waiters: map<Key, nat>, full: set<nat>, sent: set<(nat, nat)>, lost: set<nat>)

  function Run(h: seq<Mark<Key>>): Routing {
    if h == [] then Routing(map[], {}, {}, {})
    else
      var now := |h| - 1;
      Step(Run(h[..now]), h[now], now)
  }

  function Step(s: Routing, e: Mark<Key>, now: nat): Routing {
    match e
    case Open(k) => s.(waiters := s.waiters[k := now])
    case Close(k) =>
      if k !in s.waiters then s
      else
        var w := s.waiters[k];
        var s' := s.(waiters := s.waiters - {k});
        if w in s.full then s'.(lost := s.lost + {now})
        else s'.(full := s.full + {w}, sent := s.sent + {(w, now)})
    case Neither => s
  }

  lemma {:induction false} RunTable(h: seq<Mark<Key>>)
    ensures Run(h).waiters == Table(h)
  {
    if h != [] {
      RunTable(h[..|h| - 1]);
    }
  }

  /** A channel is full only if something was sent on it. */
  lemma {:induction false} FullSent(h: seq<Mark<Key>>, w: nat)
    ensures w in Run(h).full <==> exists j :: (w, j) in Run(h).sent
  {
    if h != [] {
      var now := |h| - 1;
      var s, s' := Run(h[..now]), Run(h);
      FullSent(h[..now], w);
      if w in s.full {
        var j :| (w, j) in s.sent;
        assert (w, j) in s'.sent;
      } else if w in s'.full {
        assert (w, now) in s'.sent;
      }
    }
  }

  lemma PairedBefore(h: seq<Mark<Key>>, i: nat, j: nat)
    requires h != [] && j < |h| - 1
    ensures Paired(h, i, j) <==> Paired(h[..|h| - 1], i, j)
  {
    var p := h[..|h| - 1];
    MateAppend(p, h[|h| - 1], j);
    assert p + [h[|h| - 1]] == h;
    MateExact(h, i, j);
    MateExact(p, i, j);
  }

  lemma EmptyIfPaired(h: seq<Mark<Key>>, k: Key)
    requires k in Run(h).waiters
    requires forall i: nat, j: nat :: (i, j) in Run(h).sent ==> Paired(h, i, j)
    ensures Run(h).waiters[k] !in Run(h).full
  {
    var w := Run(h).waiters[k];
    RunTable(h);
    TableExact(h, k, w);
    FullSent(h, w);
    forall j: nat ensures (w, j) !in Run(h).sent {
      LatestUnpaired(h, k, w, j);
    }
  }

  /**
   An acknowledgement reaches a waiter if and only if that waiter made the latest registration
   for its kind and identifier and no acknowledgement consumed it since; none is lost.
   */
  lemma {:induction false} RouteExact(h: seq<Mark<Key>>)
    ensures forall i: nat, j: nat :: (i, j) in Run(h).sent <==> Paired(h, i, j)
    ensures Run(h).lost == {}
  {
    if h != [] {
      var now := |h| - 1;
      var p := h[..now];
      RouteExact(p);
      RunTable(p);
      if h[now].Close? && h[now].key in Table(p) {
        EmptyIfPaired(p, h[now].key);
      }
      forall i: nat, j: nat ensures (i, j) in Run(h).sent <==> Paired(h, i, j) {
        SentStep(h, i, j);
      }
    }
  }

  /** Every registered channel is empty, so the non-blocking send drops nothing. */
  lemma RegisteredEmpty(h: seq<Mark<Key>>, k: Key)
    requires k in Run(h).waiters
    ensures Run(h).waiters[k] !in Run(h).full
  {
    RouteExact(h);
    EmptyIfPaired(h, k);
  }

  lemma SentStep(h: seq<Mark<Key>>, i: nat, j: nat)
    requires h != []
    requires (i, j) in Run(h[..|h| - 1]).sent <==> Paired(h[..|h| - 1], i, j)
    requires h[|h| - 1].Close? && h[|h| - 1].key in Run(h[..|h| - 1]).waiters ==>
               Run(h[..|h| - 1]).waiters[h[|h| - 1].key] !in Run(h[..|h| - 1]).full
    ensures (i, j) in Run(h).sent <==> Paired(h, i, j)
  {
    var now := |h| - 1;
    if j < now {
      PairedBefore(h, i, j);
    } else if j == now {
      MateExact(h, i, now);
      RunTable(h[..now]);
    }
  }

  /** Each waiter gets at most one acknowledgement, and each acknowledgement goes to at most one waiter. */
  lemma OneEach(h: seq<Mark<Key>>, i: nat, j: nat, i': nat, j': nat)
    requires (i, j) in Run(h).sent && (i', j') in Run(h).sent
    ensures i == i' <==> j == j'
  {
    RouteExact(h);
    PairedUnique(h, i, j, i', j');
  }

  /** Registered channels are distinct. */
  lemma Distinct(h: seq<Mark<Key>>, k: Key, k': Key)
    requires k in Run(h).waiters && k' in Run(h).waiters && Run(h).waiters[k] == Run(h).waiters[k']
    ensures k == k'
  {
    RunTable(h);
    TableExact(h, k, Table(h)[k]);
    TableExact(h, k', Table(h)[k']);
  }

  lemma RunAppend(h: seq<Mark<Key>>, e: Mark<Key>)
    ensures Run(h + [e]) == Step(Run(h), e, |h|)
  {
    assert (h + [e])[..|h|] == h;
  }

  // ---- The objects ----

  /** `make(chan T, 1)`, with the moment of its registration. */
  class Channel {
    ghost const birth: nat
    var buffer: seq<Ack>

    constructor (ghost birth: nat)
      ensures this.birth == birth && buffer == []
    {
      this.birth := birth;
      buffer := [];
    }

    /** A send with a default branch: the value is dropped when the buffer is full. */
    method TrySend(ack: Ack)
      modifies this
      ensures buffer == if old(buffer) == [] then [ack] else old(buffer)
    {
      if |buffer| < 1 {
        buffer := buffer + [ack];
      }
    }
  }

  class Signaller {
    var waiters: map<Key, Channel>
    ghost var log: seq<Mark<Key>>

    /** The registered channels are empty and are those of the history. */
    ghost predicate Valid()
      reads this, waiters.Values
    {
      waiters.Keys == Run(log).waiters.Keys &&
      forall k :: k in waiters ==> waiters[k].birth == Run(log).waiters[k] && waiters[k].buffer == []
    }

    constructor ()
      ensures Valid() && log == [] && waiters == map[]
    {
      waiters := map[];
      log := [];
    }

    /** A waiter makes a channel and puts it in the map, over an earlier one for the same key. */
    method Register(key: Key) returns (ch: Channel)
      requires Valid()
      modifies this
      ensures Valid() && log == old(log) + [Open(key)]
      ensures fresh(ch) && ch.buffer == [] && ch.birth == |old(log)| && waiters == old(waiters)[key := ch]
    {
      ch := new Channel(|log|);
      RunAppend(log, Open(key));
      waiters := waiters[key := ch];
      log := log + [Open(key)];
    }

    /** `PubAck`, `PubRec`, `PubComp`, `SubAck`, `UnsubAck`: take the channel and delete it from the map. */
    method Take(key: Key) returns (ch: Option<Channel>)
      modifies this`waiters
      ensures waiters == old(waiters) - {key}
      ensures ch == if key in old(waiters) then Some(old(waiters[key])) else None
    {
      ch := if key in waiters then Some(waiters[key]) else None;
      waiters := waiters - {key};
    }

    /** An acknowledgement arrives at `serve`: a registered waiter finds it in its channel, and nobody else. */
    method Arrive(key: Key, ack: Ack)
      requires Valid()
      modifies this, if key in waiters then {waiters[key]} else {}
      ensures Valid() && log == old(log) + [Close(key)] && waiters == old(waiters) - {key}
      ensures key in old(waiters) ==>
                var ch := old(waiters[key]);
                ch.buffer == [ack] && (ch.birth, |old(log)|) in Run(log).sent
    {
      RouteExact(log);
      RunAppend(log, Close(key));
      if key in waiters {
        RegisteredEmpty(log, key);
        forall k | k in waiters && waiters[k] == waiters[key] ensures k == key {
          Distinct(log, k, key);
        }
      }
      var ch := Take(key);
      log := log + [Close(key)];
      if ch.Some? {
        ch.value.TrySend(ack);
      }
    }
  }
}
