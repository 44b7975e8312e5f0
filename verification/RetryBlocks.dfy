/**
 What each task issues, and that the order of first attempts is that of the tasks: an
 operation called for takes the place of its task, and so do the operations that a
 Resubscribe adds.
 */
module RetryBlocks {
  import opened Bytes
  import opened Subscriptions
  import opened Sender
  import opened RetryModel
  import opened RetryOrder

  function Numbers(from: nat, n: nat): seq<nat> {
    seq(n, i requires 0 <= i < n => from + i)
  }

  /** Which operations the loop has issued: one new number for each new cell. */
  ghost predicate IssuedFrom(issued: seq<nat>, from: nat, s: State) {
    |s.cells| >= from && s.hist.issued == issued + Numbers(from, |s.cells| - from)
  }

  lemma OneIssued(issued: seq<nat>, from: nat, s: State, s': State)
    requires IssuedFrom(issued, from, s)
    requires s'.hist.issued == s.hist.issued + [|s.cells|] && |s'.cells| == |s.cells| + 1
    ensures IssuedFrom(issued, from, s')
  {
  }

  lemma ResubscribeIssues(s: State, saved: seq<Subscription>, nets: seq<Net>)
    ensures var s' := ResubscribeFrom(s, saved, nets, 0);
            !s'.crashed ==> s'.hist.issued == s.hist.issued + Numbers(|s.cells|, |saved|)
  {
    var issued, from := s.hist.issued, |s.cells|;
    var P := x => IssuedFrom(issued, from, x);
    assert Numbers(from, 0) == [];
    forall x: State, sub: Subscription, net: Net | P(x) && !x.crashed ensures P(ResubscribeOne(x, sub, net)) {
      OneIssued(issued, from, x, ResubscribeOne(x, sub, net));
    }
    ResubscribeKeeps(P, s, saved, nets, 0);
  }

  // ---- One block for each task ----

  /** What the next task is to issue: its operation unless refused, or one new operation per established entry. */
  function BlockOf(s: State, nets: seq<Net>): seq<nat>
    requires Linked(s) && s.tasks != []
  {
    match s.tasks[0]
    case Do(op) => if Refused(s, op, NetAt(nets, 0)) then [] else [op]
    case Resubscribe => Numbers(|s.cells|, |s.established|)
    case Retry => []
    case Disconnect => []
  }

  /** The blocks of the tasks that have run. */
  function Blocks(events: seq<Event>): seq<seq<nat>> {
    if events == [] then []
    else
      var before, e := events[..|events| - 1], events[|events| - 1];
      var s := After(before);
      if e.LoopTurn? && !s.crashed && s.tasks != [] then Blocks(before) + [BlockOf(s, e.nets)] else Blocks(before)
  }

  /** A turn issues exactly the block of its task. */
  lemma TurnBlock(s: State, nets: seq<Net>)
    requires Linked(s) && !s.crashed && s.tasks != []
    ensures var s' := Turn(s, nets);
            !s'.crashed ==>
              s'.hist.issued == s.hist.issued + BlockOf(s, nets) && s'.hist.run == s.hist.run + [s.tasks[0]]
  {
    var s1 := Popped(s);
    match s.tasks[0]
    case Do(op) =>
      assert s.hist.issued + [] == s.hist.issued;
    case Resubscribe =>
      ResubscribeIssues(Cleared(s1), s1.established, nets);
    case Retry =>
      assert s.hist.issued + [] == s.hist.issued;
    case Disconnect =>
      assert s.hist.issued + [] == s.hist.issued;
  }

  /** What a block is, by the kind of its task. */
  predicate BlockFits(t: Task, block: seq<nat>, dropped: seq<nat>) {
    match t
    case Do(op) => block == [op] || (block == [] && op in dropped)
    case Resubscribe => forall i :: 0 <= i < |block| ==> block[i] == block[0] + i
    case Retry => block == []
    case Disconnect => block == []
  }

  predicate AllFit(run: seq<Task>, blocks: seq<seq<nat>>, dropped: seq<nat>) {
    |blocks| == |run| && forall k :: 0 <= k < |run| ==> BlockFits(run[k], blocks[k], dropped)
  }

  lemma MoreFit(run: seq<Task>, blocks: seq<seq<nat>>, dropped: seq<nat>, t: Task, block: seq<nat>, dropped': seq<nat>)
    requires AllFit(run, blocks, dropped) && dropped <= dropped' && BlockFits(t, block, dropped')
    ensures AllFit(run + [t], blocks + [block], dropped')
  {
    forall k | 0 <= k < |run| ensures BlockFits(run[k], blocks[k], dropped') {
      assert BlockFits(run[k], blocks[k], dropped);
    }
  }

  lemma TurnFits(s: State, nets: seq<Net>)
    requires Linked(s) && !s.crashed && s.tasks != []
    ensures var s' := Turn(s, nets);
            s.hist.dropped <= s'.hist.dropped && BlockFits(s.tasks[0], BlockOf(s, nets), s'.hist.dropped)
  {
  }

  /** The issued operations are the blocks of the tasks run. */
  predicate InBlocks(s: State, blocks: seq<seq<nat>>) {
    s.hist.issued == Flatten(blocks) && AllFit(s.hist.run, blocks, s.hist.dropped)
  }

  lemma TurnBlocks(s: State, blocks: seq<seq<nat>>, nets: seq<Net>)
    requires Linked(s) && !s.crashed && s.tasks != [] && InBlocks(s, blocks)
    ensures var s' := Turn(s, nets); !s'.crashed ==> InBlocks(s', blocks + [BlockOf(s, nets)])
  {
    TurnBlock(s, nets);
    TurnFits(s, nets);
    FlattenAppend(blocks, BlockOf(s, nets));
    MoreFit(s.hist.run, blocks, s.hist.dropped, s.tasks[0], BlockOf(s, nets), Turn(s, nets).hist.dropped);
  }

  lemma StepBlocks(s: State, blocks: seq<seq<nat>>, e: Event)
    requires Linked(s) && !s.crashed && InBlocks(s, blocks)
    ensures var s' := Step(s, e);
            !s'.crashed ==> InBlocks(s', if e.LoopTurn? && s.tasks != [] then blocks + [BlockOf(s, e.nets)] else blocks)
  {
    if e.LoopTurn? && s.tasks != [] {
      TurnBlocks(s, blocks, e.nets);
    }
  }

  /**
   In every reachable state that has not panicked, the issued operations are the blocks of the
   tasks run, in their order: called operations unless given up, and consecutive new numbers for a Resubscribe.
   */
  lemma {:induction false} AlwaysBlocks(events: seq<Event>)
    ensures !After(events).crashed ==> InBlocks(After(events), Blocks(events))
  {
    if events != [] {
      var before, e := events[..|events| - 1], events[|events| - 1];
      AlwaysBlocks(before);
      if !After(before).crashed {
        StepBlocks(After(before), Blocks(before), e);
      }
    }
  }

  // ---- Order ----

  /** x occurs, and before every occurrence of y. */
  predicate Before(s: seq<nat>, x: nat, y: nat) {
    exists i :: 0 <= i < |s| && s[i] == x && forall j :: 0 <= j <= i ==> s[j] != y
  }

  lemma {:induction false} FlattenSplit(blocks: seq<seq<nat>>, n: nat)
    requires n <= |blocks|
    ensures Flatten(blocks) == Flatten(blocks[..n]) + Flatten(blocks[n..])
  {
    if n == 0 {
      assert blocks[..0] == [] && blocks[0..] == blocks;
      assert Flatten(blocks) == [] + Flatten(blocks);
    } else {
      FlattenSplit(blocks[1..], n - 1);
      assert blocks[1..][..n - 1] == blocks[..n][1..] && blocks[1..][n - 1..] == blocks[n..];
      Associate(blocks[0], Flatten(blocks[..n][1..]), Flatten(blocks[n..]));
    }
  }

  lemma {:induction false} InFlatten(blocks: seq<seq<nat>>, k: nat, x: nat)
    requires k < |blocks| && x in blocks[k]
    ensures x in Flatten(blocks)
  {
    if k > 0 {
      InFlatten(blocks[1..], k - 1, x);
    }
  }

  lemma HalvesOrder(a: seq<nat>, b: seq<nat>, x: nat, y: nat)
    requires NoDuplicates(a + b) && x in a && y in b
    ensures Before(a + b, x, y)
  {
    var p :| 0 <= p < |a| && a[p] == x;
    var q :| 0 <= q < |b| && b[q] == y;
    assert (a + b)[p] == x && (a + b)[|a| + q] == y;
  }

  lemma FlattenOrder(blocks: seq<seq<nat>>, a: nat, b: nat, x: nat, y: nat)
    requires a < b < |blocks| && x in blocks[a] && y in blocks[b] && NoDuplicates(Flatten(blocks))
    ensures Before(Flatten(blocks), x, y)
  {
    FlattenSplit(blocks, b);
    InFlatten(blocks[..b], a, x);
    assert blocks[b..][0] == blocks[b];
    InFlatten(blocks[b..], 0, y);
    HalvesOrder(Flatten(blocks[..b]), Flatten(blocks[b..]), x, y);
  }

  lemma PrefixOrder(issued: seq<nat>, attempted: seq<nat>, x: nat, y: nat)
    requires attempted <= issued && Before(issued, x, y) && y in attempted
    ensures Before(attempted, x, y)
  {
    var i :| 0 <= i < |issued| && issued[i] == x && forall j :: 0 <= j <= i ==> issued[j] != y;
    var q :| 0 <= q < |attempted| && attempted[q] == y;
    assert issued[q] == y && i < q;
    assert attempted[i] == x && forall j :: 0 <= j <= i ==> attempted[j] == issued[j];
  }

  /** Whatever an earlier task issued is first attempted before anything that a later task issued. */
  lemma BlockOrder(events: seq<Event>, a: nat, b: nat, x: nat, y: nat)
    requires !After(events).crashed && a < b < |Blocks(events)| && x in Blocks(events)[a] && y in Blocks(events)[b]
    requires y in After(events).hist.attempted
    ensures Before(After(events).hist.attempted, x, y)
  {
    AlwaysOrdered(events);
    AlwaysBlocks(events);
    var s := After(events);
    var all := s.hist.issued + TaskOps(s.tasks);
    assert forall i :: 0 <= i < |s.hist.issued| ==> all[i] == s.hist.issued[i];
    FlattenOrder(Blocks(events), a, b, x, y);
    PrefixOrder(s.hist.issued, s.hist.attempted, x, y);
  }

  lemma NotYetIssued(issued: seq<nat>, op: nat, rest: seq<nat>)
    requires NoDuplicates((issued + [op]) + rest)
    ensures op !in issued
  {
    var all := (issued + [op]) + rest;
    assert all[|issued|] == op;
    assert forall i :: 0 <= i < |issued| ==> all[i] == issued[i];
  }
}
