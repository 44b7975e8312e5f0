/**
 Which calls the retry client accepts: said by request and limit, over whole runs.
 */
module RetryAcceptance {
  import opened Bytes
  import opened Messages
  import opened Sender
  import opened RetryModel
  import opened RetryOrder
  import opened RetryLoss
  import PC = PublishCodec
  import R = Requests

  /**
   A Subscribe or an Unsubscribe, any message as long as there is no client yet, and else a message
   of QoS at most 2 with a payload below the limit, if there is one.
   */
  predicate Takes(r: Request, limit: Option<nat>) {
    match r
    case Pub(m) => limit.None? || (m.qos <= 2 && (limit.value == 0 || |m.payload| < limit.value))
    case Sub(_) => true
    case Unsub(_) => true
  }

  /** Disconnect has been called. */
  predicate Disconnected(events: seq<Event>) {
    exists i :: 0 <= i < |events| && events[i].CallDisconnect?
  }

  /** The tasks that the calls of a run push: nothing any more once Disconnect has been called. */
  function Pushed(events: seq<Event>): seq<Task> {
    if events == [] then []
    else
      var before, e := events[..|events| - 1], events[|events| - 1];
      Pushed(before) + if Disconnected(before) then [] else PushedBy(After(before), e)
  }

  /** One call: accepted with its request stored as given, or no change at all. */
  lemma CallExactly(s: State, r: Request, limit: Option<nat>)
    requires Linked(s) && !s.crashed
    ensures var s' := Step(s, Call(r, limit));
            if !s.stopped && Takes(r, limit) then
              s'.tasks == s.tasks + [Do(|s.hist.requests|)] &&
              s'.hist.accepted == s.hist.accepted + [Do(|s.hist.requests|)] &&
              s'.hist.requests == s.hist.requests + [r] && s'.cells == s.cells + [r] &&
              s'.queue == s.queue && s'.established == s.established && s'.stopped == s.stopped && !s'.crashed
            else s' == s
  {
  }

  /** What one event pushes. */
  function PushedBy(s: State, e: Event): seq<Task> {
    match e
    case Call(r, limit) => if Takes(r, limit) then [Do(|s.hist.requests|)] else []
    case CallResubscribe => [Resubscribe]
    case CallRetry => [Retry]
    case CallDisconnect => [Disconnect]
    case LoopTurn(_) => []
  }

  lemma StepExactly(s: State, e: Event)
    requires Linked(s) && !s.crashed && !Step(s, e).crashed
    ensures Step(s, e).hist.accepted == s.hist.accepted + if s.stopped then [] else PushedBy(s, e)
  {
    assert s.hist.accepted + [] == s.hist.accepted;
    if e.Call? {
      CallExactly(s, e.request, e.limit);
    }
  }

  lemma {:induction false} StoppedExactly(events: seq<Event>)
    ensures !After(events).crashed ==> (After(events).stopped <==> Disconnected(events))
  {
    if events != [] {
      var n := |events| - 1;
      var before := events[..n];
      StoppedExactly(before);
      if After(before).crashed {
        StaysCrashed(After(before), events[n]);
      }
      DisconnectedStep(events);
    }
  }

  lemma DisconnectedStep(events: seq<Event>)
    requires events != []
    ensures var n := |events| - 1; Disconnected(events) <==> Disconnected(events[..n]) || events[n].CallDisconnect?
  {
    var n := |events| - 1;
    assert forall i :: 0 <= i < n ==> events[..n][i] == events[i];
  }

  /** In every run, the tasks accepted are those that its calls push, in their order. */
  lemma {:induction false} AcceptedExactly(events: seq<Event>)
    ensures !After(events).crashed ==> After(events).hist.accepted == Pushed(events)
  {
    if events != [] {
      var n := |events| - 1;
      var before, e := events[..n], events[n];
      var s := After(before);
      AcceptedExactly(before);
      StoppedExactly(before);
      if s.crashed {
        StaysCrashed(s, e);
      } else if !Step(s, e).crashed {
        StepExactly(s, e);
      }
    }
  }

  /** A call is rejected under a limit exactly when its own task, on a client with that limit, would give it up. */
  lemma RejectedAsGivenUp(s: State, nets: seq<Net>, op: nat, limit: nat)
    requires Linked(s) && !s.crashed && s.tasks != [] && s.tasks[0] == Do(op) && s.queue == []
    requires NetAt(nets, 0).maxPayload == limit
    ensures op < |s.hist.requests| && (GivesUp(s, nets, op) <==> !Takes(s.hist.requests[op], Some(limit)))
  {
  }

  /** A request panics when sent exactly if its packer does. */
  lemma EncodableExact(r: Request, id: uint16)
    ensures Encodable(r) <==> match r
                              case Pub(m) => PC.PublishPacket(m).Ok?
                              case Sub(subs) => R.SubscribePacket(id, subs).Ok?
                              case Unsub(topics) => R.UnsubscribePacket(id, topics).Ok?
  {
    if r.Pub? && Fits(r.msg) {
      PC.PublishLayout(r.msg);
    }
  }
}
