/**
 Which two messages can meet in the retry queue under one packet identifier: exactly those of
 which one caller at least chose an identifier, and not both chose different ones.
 */
module RetryCollisions {
  import opened Bytes
  import opened Messages
  import opened Sender
  import opened RetryModel
  import opened RetryIdentifiers
  import opened RetryExamples

  /** A message that can be in flight at all. */
  predicate Sendable(m: Message) {
    1 <= m.qos <= 2 && Fits(m)
  }

  /** The n-th identifier after k. */
  function Beside(k: PacketId, n: nat): PacketId
    requires n <= 2
  {
    if k + n <= 0xFFFF then k + n else k + n - 0xFFFF
  }

  lemma BesideDistinct(k: PacketId)
    ensures Beside(k, 0) == k && Beside(k, 1) != k && Beside(k, 2) != k && Beside(k, 1) != Beside(k, 2)
  {
  }

  /** The identifier under which the two meet. */
  function Clash(a: Message, b: Message): PacketId
    requires !Compatible(a.id, b.id)
  {
    if a.id != 0 then a.id else b.id
  }

  /** No answer, for a client that draws the identifier n. */
  function Silent(n: PacketId): Net {
    NO_ACK.(newId := n)
  }

  /** The client of the pass: whoever left the identifier to it draws the one that the other caller chose. */
  function Draws(a: Message, b: Message): seq<Net>
    requires !Compatible(a.id, b.id)
  {
    var k := Clash(a, b);
    [ALL_WELL.(newId := Beside(k, 2)), Silent(if a.id == 0 then k else Beside(k, 1)),
     Silent(if a.id == 0 then Beside(k, 1) else k)]
  }

  /** Both messages wait behind a Subscribe that was not answered; all three are tried in one pass. */
  function SharedRun(a: Message, b: Message): seq<Event>
    requires !Compatible(a.id, b.id)
  {
    [Call(Sub([]), None), LoopTurn([NO_ACK]), Call(Pub(a), None), LoopTurn([]), Call(Pub(b), None), LoopTurn([]),
     CallRetry, LoopTurn(Draws(a, b))]
  }

  lemma RunDraws(a: Message, b: Message)
    requires !Compatible(a.id, b.id)
    ensures DrawsDistinct(SharedRun(a, b))
  {
    BesideDistinct(Clash(a, b));
  }

  // ---- The pass ----

  function Numbered(m: Message, n: PacketId): Message {
    m.(id := if m.id == 0 then n else m.id, dup := false)
  }

  lemma FreshTry(s: State, op: nat, m: Message, n: PacketId)
    requires op < |s.cells| && !s.crashed && s.cells[op] == Pub(m) && Sendable(m)
    ensures var s' := RunEntry(s, Fresh(op), Silent(n));
            !s'.crashed && s'.cells == s.cells[op := Pub(Numbered(m, n))] &&
            s'.queue == s.queue + [Resume(op, Resend)] && s'.hist.requests == s.hist.requests
  {
    var t := TryRequest(Pub(m), First, Silent(n));
    assert t.result == Again(Resend) && t.request == Pub(Numbered(m, n));
  }

  /** The Subscribe of no topic is acknowledged. */
  lemma EmptyTry(s: State, n: PacketId)
    requires !s.crashed && |s.cells| > 0 && s.cells[0] == Sub([]) && s.queue == []
    ensures var net := ALL_WELL.(newId := n);
            var s' := RunEntry(s, Resume(0, Resend), net);
            !s'.crashed && !Breaks(s, Resume(0, Resend), net) && s'.cells == s.cells && s'.queue == [] &&
            s'.hist.requests == s.hist.requests
  {
    assert Granted([], []) == [];
    var t := TryRequest(Sub([]), Resend, ALL_WELL.(newId := n));
    assert t.result == Acked && t.request == Sub([]);
  }

  lemma WholePass(s0: State, s1: State, s2: State, s3: State, q: seq<Entry>, nets: seq<Net>)
    requires |q| == 3 == |nets| && q[1].Fresh? && q[2].Fresh? && !s0.crashed && !s1.crashed && !s2.crashed
    requires InMemory(q, s0) && InMemory(q, s1) && InMemory(q, s2) && InMemory(q, s3)
    requires !Breaks(s0, q[0], nets[0])
    requires s1 == RunEntry(s0, q[0], nets[0]) && s2 == RunEntry(s1, q[1], nets[1])
    requires s3 == RunEntry(s2, q[2], nets[2])
    ensures RetryFrom(s0, q, nets, 0) == s3
  {
    assert RetryFrom(s3, q, nets, 3) == s3;
    assert RetryFrom(s2, q, nets, 2) == s3;
    assert RetryFrom(s1, q, nets, 1) == s3;
  }

  lemma SharedEntries(s0: State, a: Message, b: Message, q: seq<Entry>, nets: seq<Net>, n: seq<PacketId>)
    requires !s0.crashed && s0.cells == [Sub([]), Pub(a), Pub(b)] && s0.queue == [] && Sendable(a) && Sendable(b)
    requires q == [Resume(0, Resend), Fresh(1), Fresh(2)] && |n| == 3
    requires nets == [ALL_WELL.(newId := n[0]), Silent(n[1]), Silent(n[2])]
    ensures var s' := RetryFrom(s0, q, nets, 0);
            !s'.crashed && s'.queue == [Resume(1, Resend), Resume(2, Resend)] &&
            s'.cells == [Sub([]), Pub(Numbered(a, n[1])), Pub(Numbered(b, n[2]))] &&
            s'.hist.requests == s0.hist.requests
  {
    EmptyTry(s0, n[0]);
    var s1 := RunEntry(s0, q[0], nets[0]);
    FreshTry(s1, 1, a, n[1]);
    var s2 := RunEntry(s1, q[1], nets[1]);
    FreshTry(s2, 2, b, n[2]);
    var s3 := RunEntry(s2, q[2], nets[2]);
    WholePass(s0, s1, s2, s3, q, nets);
  }

  lemma SharedPass(s: State, a: Message, b: Message)
    requires Linked(s) && !s.crashed && s.tasks == [Retry] && s.queue == [Resume(0, Resend), Fresh(1), Fresh(2)]
    requires s.cells == [Sub([]), Pub(a), Pub(b)] && Sendable(a) && Sendable(b) && !Compatible(a.id, b.id)
    ensures var s' := Step(s, LoopTurn(Draws(a, b)));
            !s'.crashed && s'.queue == [Resume(1, Resend), Resume(2, Resend)] && |s'.cells| == 3 &&
            s'.cells[1].Pub? && s'.cells[1].msg.id == Clash(a, b) &&
            s'.cells[2].Pub? && s'.cells[2].msg.id == Clash(a, b) && s'.hist.requests == s.hist.requests
  {
    var nets := Draws(a, b);
    SharedEntries(Popped(s).(queue := []), a, b, s.queue, nets, [nets[0].newId, nets[1].newId, nets[2].newId]);
  }

  // ---- The run ----

  lemma FirstWaits()
    ensures var s := After([Call(Sub([]), None)] + [LoopTurn([NO_ACK])]);
            !s.crashed && !s.stopped && s.tasks == [] && s.cells == [Sub([])] && s.queue == [Resume(0, Resend)] &&
            s.hist.requests == s.cells
  {
    FirstCall(Sub([]));
    Prefix([Call(Sub([]), None)], LoopTurn([NO_ACK]));
    UnansweredTurn(After([Call(Sub([]), None)]), []);
  }

  /** One more message waits. */
  lemma NextWaits(events: seq<Event>, m: Message)
    requires var s := After(events);
             !s.crashed && !s.stopped && s.tasks == [] && s.queue != [] && s.hist.requests == s.cells
    requires Sendable(m)
    ensures var s, s' := After(events), After((events + [Call(Pub(m), None)]) + [LoopTurn([])]);
            !s'.crashed && !s'.stopped && s'.tasks == [] && s'.queue == s.queue + [Fresh(|s.cells|)] &&
            s'.cells == s.cells + [Pub(m)] && s'.hist.requests == s'.cells
  {
    Prefix(events, Call(Pub(m), None));
    Prefix(events + [Call(Pub(m), None)], LoopTurn([]));
    QueuedCell(After(events), Pub(m));
  }

  lemma BothWait(a: Message, b: Message)
    requires Sendable(a) && Sendable(b) && !Compatible(a.id, b.id)
    ensures var s := After(SharedRun(a, b)[..6]);
            !s.crashed && !s.stopped && s.tasks == [] && s.cells == [Sub([]), Pub(a), Pub(b)] &&
            s.queue == [Resume(0, Resend), Fresh(1), Fresh(2)] && s.hist.requests == s.cells
  {
    var e := SharedRun(a, b);
    assert e[..2] == [e[0]] + [e[1]];
    assert e[..4] == (e[..2] + [e[2]]) + [e[3]];
    assert e[..6] == (e[..4] + [e[4]]) + [e[5]];
    FirstWaits();
    NextWaits(e[..2], a);
    NextWaits(e[..4], b);
  }

  /** Entries i and j of the queue after a run are continuations of requests for a and for b. */
  predicate Meet(events: seq<Event>, i: nat, j: nat, a: Message, b: Message) {
    var s := After(events);
    !s.crashed && i < |s.queue| && j < |s.queue| && s.queue[i].op != s.queue[j].op &&
    InFlight(s, s.queue[i]) && InFlight(s, s.queue[j]) &&
    s.hist.requests[s.queue[i].op] == Pub(a) && s.hist.requests[s.queue[j].op] == Pub(b)
  }

  function IdAt(events: seq<Event>, i: nat): uint16
    requires var s := After(events); i < |s.queue| && InFlight(s, s.queue[i])
  {
    After(events).cells[After(events).queue[i].op].msg.id
  }

  /** Whenever two such messages wait in the queue together, after any run, their identifiers differ. */
  ghost predicate StayApart(a: Message, b: Message) {
    forall events: seq<Event>, i: nat, j: nat ::
      DrawsDistinct(events) && Meet(events, i, j, a, b) ==> IdAt(events, i) != IdAt(events, j)
  }

  /** Any two messages that are not compatible meet under one identifier, chosen twice or chosen and drawn. */
  lemma CanShare(a: Message, b: Message)
    requires Sendable(a) && Sendable(b) && !Compatible(a.id, b.id)
    ensures DrawsDistinct(SharedRun(a, b)) && Meet(SharedRun(a, b), 0, 1, a, b)
    ensures IdAt(SharedRun(a, b), 0) == IdAt(SharedRun(a, b), 1)
  {
    var e := SharedRun(a, b);
    assert e[..7] == e[..6] + [e[6]] && e == e[..7] + [e[7]];
    RunDraws(a, b);
    BothWait(a, b);
    Prefix(e[..6], e[6]);
    Prefix(e[..7], e[7]);
    SharedPass(After(e[..7]), a, b);
  }

  /**
   Two messages stay apart in every run if and only if both callers left the identifier to the
   client, or both chose one and these differ.
   */
  lemma ApartExact(a: Message, b: Message)
    requires Sendable(a) && Sendable(b)
    ensures StayApart(a, b) <==> Compatible(a.id, b.id)
  {
    if Compatible(a.id, b.id) {
      forall events: seq<Event>, i: nat, j: nat | DrawsDistinct(events) && Meet(events, i, j, a, b)
        ensures IdAt(events, i) != IdAt(events, j)
      {
        InFlightApart(events, i, j);
      }
    } else {
      CanShare(a, b);
    }
  }
}
