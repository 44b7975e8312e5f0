/**
 The retry engine (retryclient.go) as a transition function on its state: the
 task queue, the retry queue, the established subscriptions, the memory that the
 queued closures share, and a history that only the proofs look at.
 */
module RetryModel {
  import opened Bytes
  import opened Messages
  import opened Subscriptions
  import opened Sender

  /** What a caller asks for; a request is stored once and closures refer to it by number. */
  datatype Request =
    | Pub(msg: Message)
    | Sub(subs: seq<Subscription>)
    | Unsub(topics: seq<Topic>)

  datatype Task = Do(op: nat) | Resubscribe | Retry | Disconnect

  /**
   A retry queue entry. A Resume entry is the `Retry` closure of a failed attempt
   and reports its error; a Fresh entry was never attempted, always returns nil,
   and queues its own continuation when it fails.
   */
  datatype Entry = Resume(op: nat, stage: Stage) | Fresh(op: nat)

  /** A PUBLISH or PUBREL write by an operation. */
  datatype Wire = Wire(op: nat, sent: Sent)

  /** An attempt by an operation, where it started, and what the environment decided in it. */
  datatype Trial = Trial(op: nat, stage: Stage, net: Net)

  /**
   `requests`: the requests as given; `accepted`, `run`: tasks pushed and tasks
   started; `issued`: operations handed to the network or the retry queue, in order;
   `attempted`: operations in the order of their first attempt; `acks`, `ended`: one
   element per attempt that returned nil or a non-retryable error; `dropped`:
   operations given up without an attempt; `wire`: PUBLISH and PUBREL writes; `trials`:
   the environment of every attempt;
   `since`: how many first attempts came before the last Resubscribe; `doubled`: one element for
   each entry that a Retry pass had run when it broke and put the whole old queue back.
   */
  datatype History = History(requests: seq<Request>, accepted: seq<Task>, run: seq<Task>,
                             issued: seq<nat>, attempted: seq<nat>, acks: seq<nat>, ended: seq<nat>,
                             dropped: seq<nat>, wire: seq<Wire>, trials: seq<Trial>,
                             since: nat, doubled: seq<nat>)

  datatype State = State(tasks: seq<Task>, queue: seq<Entry>, established: seq<Subscription>,
                         cells: seq<Request>, retryByError: bool, stopped: bool, crashed: bool,
                         hist: History)

  const INITIAL := State([], [], [], [], false, false, false,
                         History([], [], [], [], [], [], [], [], [], [], 0, []))

  // ---- One network attempt of any request ----

  datatype Try = Try(request: Request, stage: Stage, sent: seq<Sent>, result: Result)

  /** Packing the request does not panic. */
  predicate Encodable(r: Request) {
    match r
    case Pub(m) => Fits(m)
    case Sub(subs) => SubscribeFits(subs)
    case Unsub(topics) => UnsubscribeFits(topics)
  }

  /** The granted codes overwrite the QoS of the shared subscription slice. */
  function Granted(subs: seq<Subscription>, codes: seq<byte>): seq<Subscription>
    requires |subs| == |codes|
  {
    seq(|subs|, i requires 0 <= i < |subs| => subs[i].(qos := codes[i]))
  }

  /** `subscribeImpl` and `unsubscribeImpl`; the stage does not matter to them. */
  function Ask(r: Request, stage: Stage, net: Net): Try
    requires !r.Pub?
  {
    if !net.connected then Try(r, stage, [], Ended)
    else if !Encodable(r) then Try(r, stage, [], Crashed)
    else if net.write.result.Broken? then Try(r, stage, [], AfterBroken(net.write.result, Resend))
    else if !net.ack then Try(r, stage, [], Again(Resend))
    else if r.Unsub? then Try(r, stage, [], Acked)
    else if |net.codes| != |r.subs| then Try(r, stage, [], Ended)
    else Try(Sub(Granted(r.subs, net.codes)), stage, [], Acked)
  }

  function TryRequest(r: Request, stage: Stage, net: Net): Try {
    match r
    case Pub(m) => var a := Send(m, stage, net); Try(Pub(a.msg), stage, a.sent, a.result)
    case _ => Ask(r, stage, net)
  }

  // ---- The engine ----

  /** `applyTo` on the established list, which comes before the network attempt. */
  function Applied(list: seq<Subscription>, r: Request): Outcome<seq<Subscription>> {
    match r
    case Pub(_) => Ok(list)
    case Sub(subs) => Ok(list + subs)
    case Unsub(topics) => Unsubscribed(list, topics)
  }

  function Stamped(op: nat, sent: seq<Sent>): seq<Wire> {
    seq(|sent|, i requires 0 <= i < |sent| => Wire(op, sent[i]))
  }

  predicate InMemory(q: seq<Entry>, s: State) {
    forall i :: 0 <= i < |q| ==> q[i].op < |s.cells|
  }

  /** Memory only grows, queued entries refer to it, and queued tasks are left alone. */
  predicate Grows(s: State, s': State) {
    |s.cells| <= |s'.cells| && |s'.cells| - |s.cells| == |s'.hist.requests| - |s.hist.requests| &&
    (InMemory(s.queue, s) ==> InMemory(s'.queue, s')) &&
    s'.tasks == s.tasks && s'.stopped == s.stopped &&
    s'.hist.accepted == s.hist.accepted && s'.hist.run == s.hist.run
  }

  /** An attempt's effect on memory and history, whatever queued it. */
  function Note(s: State, op: nat, net: Net, t: Try): State
    requires op < |s.cells|
  {
    s.(cells := s.cells[op := t.request],
       hist := s.hist.(wire := s.hist.wire + Stamped(op, t.sent),
                       trials := s.hist.trials + [Trial(op, t.stage, net)],
                       acks := s.hist.acks + if t.result == Acked then [op] else [],
                       ended := s.hist.ended + if t.result == Ended then [op] else []))
  }

  /** The rest of a first attempt that did not panic: its continuation, if any, joins the queue. */
  function Enter(s: State, op: nat, list: seq<Subscription>, net: Net, t: Try): State
    requires op < |s.cells|
  {
    var n := Note(s, op, net, t);
    n.(established := list,
       queue := s.queue + if t.result.Again? then [Resume(op, t.result.stage)] else [],
       retryByError := s.retryByError || t.result.Again?,
       hist := n.hist.(attempted := s.hist.attempted + [op]))
  }

  /** A first attempt is recorded as one, and at most adds its own continuation to the queue. */
  predicate Entered(s: State, op: nat, s': State) {
    Grows(s, s') && |s'.cells| == |s.cells| && s'.hist.requests == s.hist.requests &&
    s'.hist.issued == s.hist.issued && s'.hist.dropped == s.hist.dropped && s'.hist.doubled == s.hist.doubled &&
    s'.hist.since == s.hist.since &&
    (!s'.crashed ==>
       !s.crashed && s'.hist.attempted == s.hist.attempted + [op] &&
       (s'.queue == s.queue ||
        (|s'.queue| == |s.queue| + 1 && s.queue <= s'.queue &&
         s'.queue[|s.queue|].Resume? && s'.queue[|s.queue|].op == op)))
  }

  /** The inner closures `publish`, `subscribe` and `unsubscribe`: the first attempt. */
  function FirstAttempt(s: State, op: nat, net: Net): (s': State)
    requires op < |s.cells|
    ensures Entered(s, op, s')
  {
    var list := Applied(s.established, s.cells[op]);
    var t := TryRequest(s.cells[op], First, net);
    if !list.Ok? || t.result == Crashed then s.(crashed := true) else Enter(s, op, list.value, net, t)
  }

  function Issue(s: State, op: nat): State {
    s.(hist := s.hist.(issued := s.hist.issued + [op]))
  }

  function Drop(s: State, op: nat): State {
    s.(hist := s.hist.(dropped := s.hist.dropped + [op]))
  }

  /** A message the client refuses, or a QoS 0 message behind a waiting retry queue. */
  predicate Refused(s: State, op: nat, net: Net)
    requires op < |s.cells|
  {
    var r := s.cells[op];
    r.Pub? && (!Valid(r.msg, net.maxPayload) || (r.msg.qos == 0 && s.queue != []))
  }

  /** `RetryClient.publish`, `subscribe` and `unsubscribe`: issue the operation unless it is refused. */
  function Submit(s: State, op: nat, net: Net): (s': State)
    requires op < |s.cells|
    ensures Grows(s, s') && |s'.cells| == |s.cells| && s'.hist.requests == s.hist.requests
    ensures s'.hist.doubled == s.hist.doubled && (s.crashed ==> s'.crashed) && s'.hist.since == s.hist.since
    ensures s'.hist.issued == if Refused(s, op, net) then s.hist.issued else s.hist.issued + [op]
    ensures s'.hist.dropped == if Refused(s, op, net) then s.hist.dropped + [op] else s.hist.dropped
  {
    if Refused(s, op, net) then Drop(s, op)
    else if s.queue == [] then FirstAttempt(Issue(s, op), op, net)
    else Issue(s, op).(queue := s.queue + [Fresh(op)])
  }

  /** A Resume entry changes memory and history only: neither queue nor list. */
  predicate Resumed(s: State, s': State) {
    Grows(s, s') && |s'.cells| == |s.cells| && s'.hist.requests == s.hist.requests &&
    s'.hist.issued == s.hist.issued && s'.hist.dropped == s.hist.dropped && s'.hist.doubled == s.hist.doubled &&
    s'.queue == s.queue && s'.established == s.established && s'.hist.since == s.hist.since &&
    s'.retryByError == s.retryByError && s'.hist.attempted == s.hist.attempted && (s.crashed ==> s'.crashed)
  }

  /** Running a Resume entry touches neither queue: its error goes to the Retry pass. */
  function RunResume(s: State, op: nat, stage: Stage, net: Net): (s': State)
    requires op < |s.cells|
    ensures Resumed(s, s')
  {
    var t := TryRequest(s.cells[op], stage, net);
    if t.result == Crashed then s.(crashed := true) else Note(s, op, net, t)
  }

  /** The environment of the i-th attempt of a task; past the script the client is not connected. */
  function NetAt(nets: seq<Net>, i: nat): Net {
    if i < |nets| then nets[i]
    else Net(false, 0, 1, Write(Broken(false), false), false, [], Write(Broken(false), false), false)
  }

  /** A new cell, as the variadic call in Resubscribe makes one. */
  function Allocate(s: State, r: Request): State {
    s.(cells := s.cells + [r], hist := s.hist.(requests := s.hist.requests + [r]))
  }

  /** One turn of the loop of a Resubscribe task. */
  function ResubscribeOne(s: State, sub: Subscription, net: Net): (s': State)
    ensures Grows(s, s')
    ensures |s'.cells| == |s.cells| + 1 && s'.hist.requests == s.hist.requests + [Sub([sub])]
    ensures s'.hist.doubled == s.hist.doubled && (s.crashed ==> s'.crashed) && s'.hist.since == s.hist.since
    ensures s'.hist.issued == s.hist.issued + [|s.cells|] && s'.hist.dropped == s.hist.dropped
  {
    Submit(Allocate(s, Sub([sub])), |s.cells|, net)
  }

  /** The loop of a Resubscribe task from the i-th saved subscription on. */
  function ResubscribeFrom(s: State, saved: seq<Subscription>, nets: seq<Net>, i: nat): (s': State)
    requires i <= |saved|
    ensures Grows(s, s') && s'.hist.doubled == s.hist.doubled && s'.hist.since == s.hist.since
    ensures s.hist.issued <= s'.hist.issued && s.hist.dropped == s'.hist.dropped
    ensures !s'.crashed ==> |s'.cells| == |s.cells| + |saved| - i
    decreases |saved| - i
  {
    if i == |saved| || s.crashed then s
    else ResubscribeFrom(ResubscribeOne(s, saved[i], NetAt(nets, i)), saved, nets, i + 1)
  }

  /** What every turn of the loop keeps, the whole loop keeps. */
  lemma {:induction false} ResubscribeKeeps(P: State -> bool, s: State, saved: seq<Subscription>, nets: seq<Net>,
                                            i: nat)
    requires i <= |saved| && P(s)
    requires forall s: State, sub: Subscription, net: Net ::
               P(s) && !s.crashed ==> P(ResubscribeOne(s, sub, net))
    ensures P(ResubscribeFrom(s, saved, nets, i))
    decreases |saved| - i
  {
    if i < |saved| && !s.crashed {
      ResubscribeKeeps(P, ResubscribeOne(s, saved[i], NetAt(nets, i)), saved, nets, i + 1);
    }
  }

  /** Calling one entry of the retry queue. */
  function RunEntry(s: State, e: Entry, net: Net): (s': State)
    requires e.op < |s.cells|
    ensures if e.Fresh? then Entered(s, e.op, s') else Resumed(s, s')
  {
    match e
    case Fresh(op) => FirstAttempt(s, op, net)
    case Resume(op, stage) => RunResume(s, op, stage, net)
  }

  /** Whether the i-th entry of a pass reports a retryable error. */
  predicate Breaks(s: State, e: Entry, net: Net)
    requires e.op < |s.cells|
  {
    e.Resume? && TryRequest(s.cells[e.op], e.stage, net).result.Again?
  }

  function OpsOf(q: seq<Entry>): seq<nat> {
    seq(|q|, i requires 0 <= i < |q| => q[i].op)
  }

  /** The loop of a Retry task from the i-th saved entry on. */
  function RetryFrom(s: State, saved: seq<Entry>, nets: seq<Net>, i: nat): (s': State)
    requires i <= |saved| && InMemory(saved, s)
    ensures Grows(s, s') && |s'.cells| == |s.cells| && s'.hist.requests == s.hist.requests
    ensures s'.hist.issued == s.hist.issued && s'.hist.dropped == s.hist.dropped && s'.hist.since == s.hist.since
    ensures s.hist.doubled <= s'.hist.doubled
    decreases |saved| - i
  {
    if i == |saved| || s.crashed then s
    else
      var e, net := saved[i], NetAt(nets, i);
      var s' := RunEntry(s, e, net);
      if Breaks(s, e, net) then
        s'.(queue := s'.queue + [Resume(e.op, TryRequest(s.cells[e.op], e.stage, net).result.stage)] + saved,
            hist := s'.hist.(doubled := s'.hist.doubled + OpsOf(saved[..i + 1])))
      else RetryFrom(s', saved, nets, i + 1)
  }

  /** Tasks and entries refer to stored requests. */
  predicate Linked(s: State) {
    InMemory(s.queue, s) && |s.cells| == |s.hist.requests| &&
    forall i :: 0 <= i < |s.tasks| && s.tasks[i].Do? ==> s.tasks[i].op < |s.cells|
  }

  /** The state in which the loop of a Resubscribe starts. */
  function Cleared(s: State): State {
    s.(established := [], hist := s.hist.(since := |s.hist.attempted|))
  }

  /** The body of one task. */
  function Perform(s: State, t: Task, nets: seq<Net>): (s': State)
    requires Linked(s) && (t.Do? ==> t.op < |s.cells|)
    ensures Grows(s, s')
  {
    match t
    case Do(op) => Submit(s, op, NetAt(nets, 0))
    case Resubscribe => ResubscribeFrom(Cleared(s), s.established, nets, 0)
    case Retry => RetryFrom(s.(queue := []), s.queue, nets, 0)
    case Disconnect => s
  }

  /** The state in which the body of the next task starts. */
  function Popped(s: State): State
    requires s.tasks != []
  {
    s.(tasks := s.tasks[1..], hist := s.hist.(run := s.hist.run + [s.tasks[0]]))
  }

  /** One turn of the loop over tasks: take a task, run it, and clear `newRetryByError`. */
  function Turn(s: State, nets: seq<Net>): (s': State)
    requires Linked(s)
    ensures Linked(s')
  {
    if s.crashed || s.tasks == [] then s
    else Perform(Popped(s), s.tasks[0], nets).(retryByError := false)
  }

  function Push(s: State, t: Task): State {
    s.(tasks := s.tasks + [t], hist := s.hist.(accepted := s.hist.accepted + [t]))
  }

  /** A call on the client, or a turn of its task loop. */
  datatype Event =
    | Call(request: Request, limit: Option<nat>)  // limit: MaxPayloadLen of the current client, if there is one
    | CallResubscribe
    | CallRetry
    | CallDisconnect
    | LoopTurn(nets: seq<Net>)

  predicate Rejected(r: Request, limit: Option<nat>) {
    r.Pub? && limit.Some? && !Valid(r.msg, limit.value)
  }

  function Step(s: State, e: Event): (s': State)
    requires Linked(s)
    ensures Linked(s')
  {
    match e
    case LoopTurn(nets) => Turn(s, nets)
    case Call(r, limit) =>
      if s.crashed || s.stopped || Rejected(r, limit) then s
      else Push(Allocate(s, r), Do(|s.cells|))
    case CallResubscribe => if s.crashed || s.stopped then s else Push(s, Resubscribe)
    case CallRetry => if s.crashed || s.stopped then s else Push(s, Retry)
    case CallDisconnect =>
      // the second call closes chTask twice
      if s.crashed || s.stopped then s.(crashed := true)
      else Push(s, Disconnect).(stopped := true)
  }

  /** The state after a run from the start. */
  function After(events: seq<Event>): (s: State)
    ensures Linked(s)
  {
    if events == [] then INITIAL
    else Step(After(events[..|events| - 1]), events[|events| - 1])
  }
}
