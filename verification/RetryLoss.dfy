/**
 No loss, sharpened: exactly when an operation is given up without an attempt, and that no
 other operation is ever lost.
 */
module RetryLoss {
  import opened Messages
  import opened Sender
  import opened RetryModel
  import opened RetryOrder
  import opened RetryConservation
  import opened RetryEffects

  /**
   The next task is the operation's own, and gives it up: a message that the client of this very
   turn refuses, or a QoS 0 message behind a waiting retry queue.
   */
  predicate GivesUp(s: State, nets: seq<Net>, op: nat)
    requires Linked(s)
  {
    !s.crashed && s.tasks != [] && s.tasks[0] == Do(op) && s.hist.requests[op].Pub? &&
    var m := s.hist.requests[op].msg;
    !Valid(m, NetAt(nets, 0).maxPayload) || (m.qos == 0 && s.queue != [])
  }

  /** The k-th step of the run gives the operation up. */
  predicate GivenUpAt(events: seq<Event>, k: nat, op: nat)
    requires k < |events|
  {
    events[k].LoopTurn? && GivesUp(After(events[..k]), events[k].nets, op)
  }

  lemma TurnDrops(s: State, nets: seq<Net>, op: nat)
    requires Settled(s) && !s.crashed && s.tasks != [] && !Turn(s, nets).crashed
    ensures op in Turn(s, nets).hist.dropped <==> op in s.hist.dropped || GivesUp(s, nets, op)
  {
    SettledTask(s);
    if s.tasks[0].Do? {
      assert Turn(s, nets).hist.dropped == Submit(Popped(s), s.tasks[0].op, NetAt(nets, 0)).hist.dropped;
    }
  }

  lemma StepDrops(s: State, e: Event, op: nat)
    requires Settled(s) && !s.crashed && !Step(s, e).crashed
    ensures op in Step(s, e).hist.dropped <==> op in s.hist.dropped || (e.LoopTurn? && GivesUp(s, e.nets, op))
  {
    if e.LoopTurn? && s.tasks != [] {
      TurnDrops(s, e.nets, op);
    }
  }

  predicate EverGivenUp(events: seq<Event>, op: nat) {
    exists k :: 0 <= k < |events| && GivenUpAt(events, k, op)
  }

  lemma GivenUpStep(events: seq<Event>, op: nat)
    requires events != []
    ensures var n := |events| - 1;
            EverGivenUp(events, op) <==> EverGivenUp(events[..n], op) || GivenUpAt(events, n, op)
  {
    var n := |events| - 1;
    var before := events[..n];
    forall k | 0 <= k < n ensures GivenUpAt(events, k, op) == GivenUpAt(before, k, op) {
      assert before[..k] == events[..k];
    }
    if EverGivenUp(before, op) {
      var k :| 0 <= k < n && GivenUpAt(before, k, op);
      assert GivenUpAt(events, k, op);
    }
  }

  /** In every run, an operation was given up if and only if its own task gave it up in some step. */
  lemma {:induction false} DroppedExactly(events: seq<Event>, op: nat)
    requires !After(events).crashed
    ensures op in After(events).hist.dropped <==> EverGivenUp(events, op)
  {
    if events != [] {
      var n := |events| - 1;
      var s := After(events[..n]);
      if s.crashed {
        StaysCrashed(s, events[n]);
      }
      AlwaysSettled(events[..n]);
      DroppedExactly(events[..n], op);
      StepDrops(s, events[n], op);
      GivenUpStep(events, op);
    }
  }

  /**
   No loss: in every reachable state an accepted operation that its own task did not give up is
   still a queued task, is held by a retry queue entry, was acknowledged, or ended with a
   non-retryable error. No pattern of failures, clients, Retry passes and new calls removes it
   otherwise.
   */
  lemma PromisedNeverLost(events: seq<Event>, op: nat)
    requires var s := After(events); !s.crashed && Do(op) in s.hist.accepted
    requires !EverGivenUp(events, op)
    ensures var s := After(events);
            Do(op) in s.tasks || op in s.hist.acks || op in s.hist.ended || HasEntry(s.queue, op)
  {
    NoLoss(events, op);
    DroppedExactly(events, op);
  }

  /** Subscribe and Unsubscribe are never given up, nor is a QoS 1 or 2 message that the client of its task takes. */
  lemma NotGivenUp(s: State, nets: seq<Net>, op: nat)
    requires Linked(s) && op < |s.hist.requests|
    requires var r := s.hist.requests[op];
             r.Pub? ==> 1 <= r.msg.qos <= 2 && Valid(r.msg, NetAt(nets, 0).maxPayload)
    ensures !GivesUp(s, nets, op)
  {
  }
}
