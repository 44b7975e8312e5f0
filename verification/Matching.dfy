/**
 Opening and closing marks: a table that remembers the latest opening of each key and
 forgets it at the next closing. The acknowledgement waiters (client.go) and the
 buffer of incoming QoS 2 messages (serve.go) are both used in this way.
 */
module Matching {
  import opened Bytes

  datatype Mark<K> = Open(key: K) | Close(key: K) | Neither

  /** Mark m is about key k. */
  predicate About<K(==)>(m: Mark<K>, k: K) {
    !m.Neither? && m.key == k
  }

  /** The table after a history: for each open key, when it was last opened. */
  function Table<K(==)>(h: seq<Mark<K>>): map<K, nat> {
    if h == [] then map[] else Update(Table(h[..|h| - 1]), h[|h| - 1], |h| - 1)
  }

  function Update<K(==)>(table: map<K, nat>, m: Mark<K>, now: nat): map<K, nat> {
    match m
    case Open(k) => table[k := now]
    case Close(k) => table - {k}
    case Neither => table
  }

  /** Key k was opened at i, and no mark after i is about it. */
  predicate Latest<K(==)>(h: seq<Mark<K>>, k: K, i: nat) {
    i < |h| && h[i] == Open(k) && forall m :: i < m < |h| ==> !About(h[m], k)
  }

  lemma LatestStep<K>(h: seq<Mark<K>>, k: K, i: nat)
    requires h != []
    ensures var n := |h| - 1;
            Latest(h, k, i) <==> if About(h[n], k) then h[n].Open? && i == n else Latest(h[..n], k, i)
  {
    var n := |h| - 1;
    assert h == h[..n] + [h[n]];
    if Latest(h[..n], k, i) && !About(h[n], k) {
      forall m | i < m < |h| ensures !About(h[m], k) {
        if m < n {
          assert h[..n][m] == h[m];
        }
      }
    }
    if Latest(h, k, i) && i < n {
      forall m | i < m < n ensures !About(h[..n][m], k) {
        assert h[..n][m] == h[m];
      }
    }
  }

  /** The table holds exactly the latest openings that were not closed. */
  lemma {:induction false} TableExact<K>(h: seq<Mark<K>>, k: K, i: nat)
    ensures k in Table(h) && Table(h)[k] == i <==> Latest(h, k, i)
  {
    if h != [] {
      TableExact(h[..|h| - 1], k, i);
      LatestStep(h, k, i);
    }
  }

  /** The opening that the mark at j closes. */
  function Mate<K(==)>(h: seq<Mark<K>>, j: nat): Option<nat>
    requires j < |h|
  {
    if h[j].Close? && h[j].key in Table(h[..j]) then Some(Table(h[..j])[h[j].key]) else None
  }

  /** An opening and a closing of the same key with no mark about it between them. */
  predicate Paired<K(==)>(h: seq<Mark<K>>, i: nat, j: nat) {
    i < j < |h| && h[i].Open? && h[j] == Close(h[i].key) && forall m :: i < m < j ==> !About(h[m], h[i].key)
  }

  lemma MateExact<K>(h: seq<Mark<K>>, i: nat, j: nat)
    requires j < |h|
    ensures Mate(h, j) == Some(i) <==> Paired(h, i, j)
  {
    if h[j].Close? {
      var k, p := h[j].key, h[..j];
      TableExact(p, k, i);
      assert forall m :: 0 <= m < j ==> p[m] == h[m];
      if Latest(p, k, i) {
        forall m | i < m < j ensures !About(h[m], h[i].key) {
          assert !About(p[m], k);
        }
      }
      if Paired(h, i, j) {
        forall m | i < m < |p| ensures !About(p[m], k) {
          assert !About(h[m], h[i].key);
        }
      }
    }
  }

  /** Two closings of one key that each find an opening have a new opening between them. */
  lemma OpenedBetween<K>(h: seq<Mark<K>>, i: nat, j: nat, i': nat, j': nat)
    requires Paired(h, i, j) && Paired(h, i', j') && h[j] == h[j'] && j < j'
    ensures j < i' < j'
  {
    assert i' != j;
    if i' < j {
      assert About(h[j], h[i'].key);
    }
  }

  /** Each opening has at most one closing, each closing at most one opening. */
  lemma PairedUnique<K>(h: seq<Mark<K>>, i: nat, j: nat, i': nat, j': nat)
    requires Paired(h, i, j) && Paired(h, i', j')
    ensures i == i' <==> j == j'
  {
    MateExact(h, i, j);
    MateExact(h, i', j');
    if h[j] == h[j'] {
      if j < j' {
        OpenedBetween(h, i, j, i', j');
      } else if j' < j {
        OpenedBetween(h, i', j', i, j);
      }
    }
  }

  /** What is still open was not closed. */
  lemma LatestUnpaired<K>(h: seq<Mark<K>>, k: K, i: nat, j: nat)
    requires Latest(h, k, i)
    ensures !Paired(h, i, j)
  {
  }

  /** Later marks change no pair. */
  lemma MateAppend<K>(h: seq<Mark<K>>, last: Mark<K>, j: nat)
    requires j < |h|
    ensures Mate(h + [last], j) == Mate(h, j)
  {
    assert (h + [last])[..j] == h[..j];
  }
}
