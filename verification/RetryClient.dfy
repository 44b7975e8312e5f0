/**
 The retry client in the form of its source: an object whose methods and task loop
 update the two queues, the established list and the shared memory in place. Every
 method is proved to take the step that the transition function prescribes, so the
 whole-run theorems hold of any sequence of calls on the object.
 */
module RetryClientObject {
  import opened Bytes
  import opened Messages
  import opened Subscriptions
  import opened Sender
  import opened RetryModel

  class RetryClient {
    var taskQueue: seq<Task>
    var retryQueue: seq<Entry>
    var subEstablished: seq<Subscription>
    var memory: seq<Request>
    var newRetryByError: bool
    var stopped: bool
    var panicked: bool
    ghost var hist: History

    /** The object's state as the transition function sees it. */
    ghost function Abs(): State
      reads this
    {
      State(taskQueue, retryQueue, subEstablished, memory, newRetryByError, stopped, panicked, hist)
    }

    ghost predicate Valid()
      reads this
    {
      Linked(Abs())
    }

    constructor ()
      ensures Valid() && Abs() == INITIAL
    {
      taskQueue, retryQueue, subEstablished, memory := [], [], [], [];
      newRetryByError, stopped, panicked := false, false, false;
      hist := INITIAL.hist;
    }

    // ---- Calls ----

    /** `pushTask`, for a caller that has not panicked. */
    method PushTask(t: Task) returns (ok: bool)
      requires !panicked
      modifies this`taskQueue, this`hist
      ensures ok == !stopped
      ensures Abs() == if ok then Push(old(Abs()), t) else old(Abs())
    {
      ok := !stopped;
      if ok {
        taskQueue := taskQueue + [t];
        hist := hist.(accepted := hist.accepted + [t]);
      }
    }

    /** `Publish`, `Subscribe` and `Unsubscribe`; `limit` is the current client's MaxPayloadLen, if there is one. */
    method Call(r: Request, limit: Option<nat>) returns (ok: bool)
      requires Valid() && !panicked
      modifies this
      ensures Valid() && Abs() == Step(old(Abs()), Event.Call(r, limit))
      ensures ok <==> !old(stopped) &&
                      (r.Pub? && limit.Some? ==>
                         r.msg.qos <= 2 && (limit.value == 0 || |r.msg.payload| < limit.value))
    {
      if Rejected(r, limit) || stopped {
        return false;
      }
      ghost var s := Abs();
      memory := memory + [r];
      hist := hist.(requests := hist.requests + [r]);
      ok := PushTask(Do(|memory| - 1));
    }

    method Resubscribe()
      requires Valid() && !panicked
      modifies this
      ensures Valid() && Abs() == Step(old(Abs()), CallResubscribe)
    {
      var _ := PushTask(Task.Resubscribe);
    }

    method Retry()
      requires Valid() && !panicked
      modifies this
      ensures Valid() && Abs() == Step(old(Abs()), CallRetry)
    {
      var _ := PushTask(Task.Retry);
    }

    /** The second call closes `chTask` twice, which panics. */
    method Disconnect()
      requires Valid() && !panicked
      modifies this
      ensures Valid() && Abs() == Step(old(Abs()), CallDisconnect)
    {
      var ok := PushTask(Task.Disconnect);
      if ok {
        stopped := true;
      } else {
        panicked := true;
      }
    }

    // ---- Tasks ----

    /** `applyTo` on the established list; the caller stores the result. */
    method Apply(r: Request) returns (ok: bool, list: seq<Subscription>)
      ensures ok <==> Applied(subEstablished, r).Ok?
      ensures ok ==> Applied(subEstablished, r) == Ok(list)
    {
      match r
      case Pub(_) => return true, subEstablished;
      case Sub(subs) => return true, subEstablished + subs;
      case Unsub(topics) =>
        var d := new Subscription[|subEstablished|](i requires 0 <= i < |subEstablished|
          reads this => subEstablished[i]);
        assert d[..] == subEstablished;
        var l, done := RemoveInPlace(d, topics);
        if done {
          return true, d[..l];
        }
        return false, [];
    }

    /** The inner closures: apply to the list, attempt, and queue the continuation of a retryable failure. */
    method FirstAttempt(op: nat, net: Net)
      requires op < |memory|
      modifies this
      ensures Abs() == RetryModel.FirstAttempt(old(Abs()), op, net)
    {
      ghost var s := Abs();
      var r := memory[op];
      var ok, list := Apply(r);
      var t := TryRequest(r, First, net);
      if !ok || t.result == Crashed {
        panicked := true;
        return;
      }
      subEstablished := list;
      memory := memory[op := t.request];
      if t.result.Again? {
        retryQueue := retryQueue + [Resume(op, t.result.stage)];
        newRetryByError := true;
      }
      hist := Enter(s, op, list, net, t).hist;
      assert s.queue + [] == s.queue;
    }

    method Submit(op: nat, net: Net)
      requires op < |memory|
      modifies this
      ensures Abs() == RetryModel.Submit(old(Abs()), op, net)
    {
      var r := memory[op];
      if r.Pub? && !Messages.Valid(r.msg, net.maxPayload) {
        hist := hist.(dropped := hist.dropped + [op]);
        return;
      }
      if retryQueue == [] {
        hist := hist.(issued := hist.issued + [op]);
        FirstAttempt(op, net);
        return;
      }
      if r.Pub? && r.msg.qos == 0 {
        hist := hist.(dropped := hist.dropped + [op]);
      } else {
        hist := hist.(issued := hist.issued + [op]);
        retryQueue := retryQueue + [Fresh(op)];
      }
    }

    /** Calling a Resume entry: the continuation to queue, if it failed with a retryable error. */
    method RunResume(op: nat, stage: Stage, net: Net) returns (again: Option<Stage>)
      requires op < |memory|
      modifies this
      ensures Abs() == RetryModel.RunResume(old(Abs()), op, stage, net)
      ensures var t := TryRequest(old(memory[op]), stage, net);
              again == if t.result.Again? then Some(t.result.stage) else None
    {
      ghost var s := Abs();
      var t := TryRequest(memory[op], stage, net);
      if t.result == Crashed {
        panicked := true;
        return None;
      }
      memory := memory[op := t.request];
      hist := Note(s, op, net, t).hist;
      return if t.result.Again? then Some(t.result.stage) else None;
    }

    /** The body of the loop over the saved list: a subscription of its own. */
    method ResubscribeNext(sub: Subscription, net: Net)
      modifies this
      ensures Abs() == ResubscribeOne(old(Abs()), sub, net)
    {
      memory := memory + [Sub([sub])];
      hist := hist.(requests := hist.requests + [Sub([sub])]);
      Submit(|memory| - 1, net);
    }

    method RunResubscribe(nets: seq<Net>)
      requires Valid() && !panicked
      modifies this
      ensures Abs() == Perform(old(Abs()), Task.Resubscribe, nets)
    {
      var saved := subEstablished;
      subEstablished := [];
      hist := hist.(since := |hist.attempted|);
      ghost var start := Abs();
      var i := 0;
      while i < |saved| && !panicked
        invariant 0 <= i <= |saved|
        invariant ResubscribeFrom(start, saved, nets, 0) == ResubscribeFrom(Abs(), saved, nets, i)
      {
        ghost var s := Abs();
        ResubscribeNext(saved[i], NetAt(nets, i));
        assert ResubscribeFrom(s, saved, nets, i) == ResubscribeFrom(Abs(), saved, nets, i + 1);
        i := i + 1;
      }
    }

    /** Calling one entry of the retry queue: the continuation that the Retry pass has to queue, if any. */
    method RunEntry(e: Entry, net: Net) returns (again: Option<Stage>)
      requires e.op < |memory|
      modifies this
      ensures Abs() == RetryModel.RunEntry(old(Abs()), e, net)
      ensures again.Some? <==> Breaks(old(Abs()), e, net)
      ensures again.Some? ==> again.value == TryRequest(old(memory[e.op]), e.stage, net).result.stage
    {
      match e
      case Fresh(op) =>
        FirstAttempt(op, net);
        again := None;
      case Resume(op, stage) =>
        again := RunResume(op, stage, net);
    }

    method RunRetry(nets: seq<Net>)
      requires Valid() && !panicked
      modifies this
      ensures Abs() == Perform(old(Abs()), Task.Retry, nets)
    {
      var saved := retryQueue;
      retryQueue := [];
      ghost var start := Abs();
      var i := 0;
      while i < |saved| && !panicked
        invariant 0 <= i <= |saved| && InMemory(saved, Abs()) && InMemory(saved, start)
        invariant RetryFrom(start, saved, nets, 0) == RetryFrom(Abs(), saved, nets, i)
        decreases |saved| - i
      {
        ghost var s := Abs();
        var again := RunEntry(saved[i], NetAt(nets, i));
        if again.Some? {
          retryQueue := retryQueue + [Resume(saved[i].op, again.value)] + saved;
          hist := hist.(doubled := hist.doubled + OpsOf(saved[..i + 1]));
          assert Abs() == RetryFrom(s, saved, nets, i);
          return;
        }
        assert RetryFrom(s, saved, nets, i) == RetryFrom(Abs(), saved, nets, i + 1);
        i := i + 1;
      }
    }

    /** The body of a task. */
    method RunTask(t: Task, nets: seq<Net>)
      requires Valid() && !panicked && (t.Do? ==> t.op < |memory|)
      modifies this
      ensures Abs() == Perform(old(Abs()), t, nets)
    {
      match t {
        case Do(op) => Submit(op, NetAt(nets, 0));
        case Resubscribe => RunResubscribe(nets);
        case Retry => RunRetry(nets);
        case Disconnect =>
      }
    }

    /** One turn of the loop over tasks; `close` says that the loop closes the connection. */
    method Turn(nets: seq<Net>) returns (close: bool)
      requires Valid() && !panicked
      modifies this
      ensures Valid() && Abs() == Step(old(Abs()), LoopTurn(nets))
      ensures close <==> old(taskQueue) != [] && Perform(Popped(old(Abs())), old(taskQueue)[0], nets).retryByError
    {
      if taskQueue == [] {
        return false;
      }
      var t := taskQueue[0];
      taskQueue := taskQueue[1..];
      hist := hist.(run := hist.run + [t]);
      RunTask(t, nets);
      close := newRetryByError;
      newRetryByError := false;
    }
  }
}
