/**
 Writing a packet to the transport (client.go): a loop that would resume after a short write
 but slices the rest of the packet as b[i : l-i].
 */
module Transport {
  import opened Bytes

  /** What one `Write` call of the transport returns: a count, capped by the bytes offered, and whether an error. */
  datatype Reply = Reply(count: nat, error: bool)

  /** Waiting: every reply so far asked for another call. SliceFault: the slice bounds cross, which panics. */
  datatype Ending = Done | Failed | Waiting | SliceFault

  /** `wire`: the bytes that the transport took. */
  datatype Attempt = Attempt(ending: Ending, wire: seq<byte>)

  function Taken(r: Reply, offered: nat): (n: nat)
    ensures n <= offered
  {
    if r.count <= offered then r.count else offered
  }

  /** The loop from index i on, when the transport has taken `wire`. */
  function WriteFrom(b: seq<byte>, replies: seq<Reply>, i: nat, wire: seq<byte>): Attempt
    decreases |replies|
  {
    if i >= |b| then Attempt(Done, wire)
    else if i > |b| - i then Attempt(SliceFault, wire)
    else if replies == [] then Attempt(Waiting, wire)
    else
      var n := Taken(replies[0], |b| - i - i);
      var wire' := wire + b[i..i + n];
      if replies[0].error then Attempt(Failed, wire') else WriteFrom(b, replies[1..], i + n, wire')
  }

  /** `write`, with the replies of the transport to the calls it makes. */
  method Write(b: seq<byte>, replies: seq<Reply>) returns (r: Attempt)
    ensures r == WriteFrom(b, replies, 0, [])
  {
    var l, i, calls := |b|, 0, 0;
    var wire: seq<byte> := [];
    while i < l
      invariant 0 <= i <= l && 0 <= calls <= |replies|
      invariant WriteFrom(b, replies, 0, []) == WriteFrom(b, replies[calls..], i, wire)
      decreases |replies| - calls
    {
      if i > l - i {
        return Attempt(SliceFault, wire);
      }
      if calls == |replies| {
        return Attempt(Waiting, wire);
      }
      var n := Taken(replies[calls], l - i - i);
      assert replies[calls..][1..] == replies[calls + 1..];
      wire := wire + b[i..i + n];
      if replies[calls].error {
        return Attempt(Failed, wire);
      }
      i, calls := i + n, calls + 1;
    }
    return Attempt(Done, wire);
  }

  lemma Extend(b: seq<byte>, i: nat, j: nat)
    requires i <= j <= |b|
    ensures b[..i] + b[i..j] == b[..j]
  {
  }

  /** Whatever the replies, the transport took a prefix of the packet: all of it when `write` returns nil. */
  lemma {:induction false} TookPrefix(b: seq<byte>, replies: seq<Reply>, i: nat)
    requires i <= |b|
    ensures var r := WriteFrom(b, replies, i, b[..i]);
            r.wire <= b && (r.ending == Done ==> r.wire == b)
    decreases |replies|
  {
    if i == |b| {
      assert b[..i] == b;
    } else if i <= |b| - i && replies != [] {
      var n := Taken(replies[0], |b| - i - i);
      Extend(b, i, i + n);
      TookPrefix(b, replies[1..], i + n);
    }
  }

  /** After a short write the loop can no longer succeed. */
  lemma {:induction false} ShortNeverDone(b: seq<byte>, replies: seq<Reply>, i: nat, wire: seq<byte>)
    requires 0 < i < |b|
    ensures WriteFrom(b, replies, i, wire).ending != Done
    decreases |replies|
  {
    if i <= |b| - i && replies != [] && !replies[0].error {
      var n := Taken(replies[0], |b| - i - i);
      ShortNeverDone(b, replies[1..], i + n, wire + b[i..i + n]);
    }
  }

  /** The first reply that takes anything or fails takes all and does not fail. */
  predicate AllAtOnce(length: nat, replies: seq<Reply>) {
    replies != [] && !replies[0].error &&
    (replies[0].count >= length || (replies[0].count == 0 && AllAtOnce(length, replies[1..])))
  }

  /** `write` returns nil if and only if the first call that takes anything takes the whole packet. */
  lemma {:induction false} WriteExact(b: seq<byte>, replies: seq<Reply>)
    ensures WriteFrom(b, replies, 0, []).ending == Done <==> b == [] || AllAtOnce(|b|, replies)
    decreases |replies|
  {
    if b != [] && replies != [] && !replies[0].error {
      var n := Taken(replies[0], |b|);
      assert [] + b[0..n] == b[..n];
      if n == 0 {
        WriteExact(b, replies[1..]);
      } else if n < |b| {
        ShortNeverDone(b, replies[1..], n, b[..n]);
      }
    }
  }

  /** The contract of `io.Writer` for an offer of so many bytes: a short write returns an error. */
  predicate KeepsContract(r: Reply, offered: nat) {
    r.count < offered ==> r.error
  }

  /** Under that contract one call decides: nil with the whole packet taken, or an error with a prefix taken. */
  lemma WriteUnderContract(b: seq<byte>, replies: seq<Reply>)
    requires b != [] && replies != [] && KeepsContract(replies[0], |b|)
    ensures WriteFrom(b, replies, 0, [])
            == if replies[0].error then Attempt(Failed, b[..Taken(replies[0], |b|)]) else Attempt(Done, b)
  {
    var n := Taken(replies[0], |b|);
    assert [] + b[0..n] == b[..n];
    assert n == |b| ==> b[..n] == b;
  }

  /** A transport that takes more than half of a packet, but not all, without an error makes the loop panic. */
  lemma OverHalfWrite(b: seq<byte>, replies: seq<Reply>)
    requires replies != [] && !replies[0].error && |b| / 2 < replies[0].count < |b|
    ensures WriteFrom(b, replies, 0, []) == Attempt(SliceFault, b[..replies[0].count])
  {
    assert [] + b[0..replies[0].count] == b[..replies[0].count];
  }

  lemma {:induction false} Spins(b: seq<byte>, replies: seq<Reply>, wire: seq<byte>)
    requires |b| >= 2 && |b| % 2 == 0
    ensures WriteFrom(b, replies, |b| / 2, wire).ending in {Failed, Waiting}
    decreases |replies|
  {
    if replies != [] && !replies[0].error {
      assert Taken(replies[0], 0) == 0;
      Spins(b, replies[1..], wire + b[|b| / 2..|b| / 2]);
    }
  }

  /**
   A transport that takes half a packet without an error makes the loop offer nothing, again and
   again, until an error.
   */
  lemma HalfWrite(b: seq<byte>, replies: seq<Reply>)
    requires |b| >= 2 && |b| % 2 == 0 && replies != [] && replies[0] == Reply(|b| / 2, false)
    ensures WriteFrom(b, replies, 0, []).ending in {Failed, Waiting}
  {
    Spins(b, replies[1..], [] + b[0..|b| / 2]);
  }
}
