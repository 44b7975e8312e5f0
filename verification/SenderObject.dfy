/**
 `publishImpl` and its retry closures in the form of their source: closures that
 share one message and update its packet identifier and DUP flag in place.
 */
module SenderObject {
  import opened Messages
  import opened Sender

  class Publication {
    var message: Message
    ghost var log: seq<Sent>

    constructor (m: Message)
      ensures message == m && log == []
    {
      message := m;
      log := [];
    }

    /** Writing PUBREL and waiting for PUBCOMP. */
    method RetryPublish2(net: Net) returns (r: Result)
      modifies this`log
      ensures var a := Send(message, Release, net); message == a.msg && log == old(log) + a.sent && r == a.result
    {
      if !net.connected {
        assert log + [] == log;
        return Ended;
      }
      log := log + [Sent(PUBREL(message.id), net.release)];
      match net.release.result
      case Broken(eof) => return if eof then Ended else Again(Resend);
      case Written => return if net.comp then Acked else Again(Release);
    }

    method Impl(dup: bool, net: Net) returns (r: Result)
      modifies this
      ensures var a := PublishImpl(old(message), dup, net);
              message == a.msg && log == old(log) + a.sent && r == a.result
    {
      if message.id == 0 {
        message := message.(id := net.newId);
      }
      message := message.(dup := dup);
      if !net.connected {
        assert log + [] == log;
        return Ended;
      }
      if !Fits(message) {
        assert log + [] == log;
        return Crashed;
      }
      ghost var before := log;
      log := log + [Sent(PUBLISH(message), net.write)];
      if net.write.result.Broken? {
        return if message.qos > 0 && !net.write.result.eof then Again(Resend) else Ended;
      }
      if message.qos == 0 {
        return Acked;
      }
      if !net.ack {
        return Again(Resend);
      }
      if message.qos == 1 {
        return Acked;
      }
      r := RetryPublish2(net);
      var p := Sent(PUBLISH(message), net.write);
      assert log == before + ([p] + Send(message, Release, net).sent);
    }

    /** `Publish`: the first attempt. */
    method Publish(net: Net) returns (r: Result)
      modifies this
      ensures var a := Send(old(message), First, net); message == a.msg && log == old(log) + a.sent && r == a.result
    {
      if !Valid(message, net.maxPayload) {
        assert log + [] == log;
        return Ended;
      }
      r := Impl(false, net);
    }

    method RetryPublish(net: Net) returns (r: Result)
      modifies this
      ensures var a := Send(old(message), Resend, net); message == a.msg && log == old(log) + a.sent && r == a.result
    {
      r := Impl(true, net);
    }

    /** A whole chain: attempts over one connection after another until one returns no continuation. */
    method Deliver(nets: seq<Net>) returns (status: Status)
      requires log == []
      modifies this
      ensures RunChain(old(message), nets) == Chain(message, log, status)
    {
      ghost var m := message;
      status := Unsent;
      var i := 0;
      while i < |nets|
        invariant 0 <= i <= |nets|
        invariant RunChain(m, nets[..i]) == Chain(message, log, status)
      {
        assert nets[..i + 1][..i] == nets[..i] && nets[..i + 1][i] == nets[i];
        ghost var c := Chain(message, log, status);
        if !status.Over? {
          var r: Result;
          match StageOf(status) {
            case First => r := Publish(nets[i]);
            case Resend => r := RetryPublish(nets[i]);
            case Release => r := RetryPublish2(nets[i]);
          }
          status := StatusOf(r);
        }
        assert Chain(message, log, status) == Extend(c, nets[i]);
        i := i + 1;
      }
      assert nets[..i] == nets;
    }
  }
}
