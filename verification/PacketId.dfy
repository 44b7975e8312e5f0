/**
 Packet identifiers (uniqid.go): the low 16 bits of a wrapping 32-bit counter, zero skipped.
 */
module PacketId {
  import opened Bytes

  type uint32 = x: int | 0 <= x < 0x1_0000_0000

  /** `atomic.AddUint32(&idLast, 1)`. */
  function Add(last: uint32): uint32 {
    (last + 1) % 0x1_0000_0000
  }

  function Low16(v: uint32): uint16 {
    v % 0x1_0000
  }

  /** The counter after one call of `newID`. */
  function Advance(last: uint32): (r: uint32)
    ensures Low16(r) != 0
  {
    var v := Add(last);
    if Low16(v) == 0 then Add(v) else v
  }

  /** `BaseClient` as far as identifiers go. */
  class IdSource {
    var idLast: uint32

    constructor ()
      ensures idLast == 0
    {
      idLast := 0;
    }

    /** `initID` with the random number drawn by `rand.Int31n(0xFFFE)`. */
    method InitID(random: uint32)
      requires random < 0xFFFE
      modifies this
      ensures idLast == random + 1
    {
      idLast := random + 1;
    }

    /** `newID`: the termination measure says that it calls itself at most once. */
    method NewID() returns (id: uint16)
      modifies this
      ensures idLast == Advance(old(idLast)) && id == Low16(idLast) && id != 0
      decreases if Low16(Add(idLast)) == 0 then 1 else 0
    {
      idLast := Add(idLast);
      id := Low16(idLast);
      if id == 0 {
        id := NewID();
      }
    }
  }

  /** The counter after k calls. */
  function After(last: uint32, k: nat): uint32 {
    if k == 0 then last else Advance(After(last, k - 1))
  }

  /** The identifier returned by call number k, counted from 0. */
  function Nth(last: uint32, k: nat): uint16 {
    Low16(After(last, k + 1))
  }

  /** One call: the successor in the cycle 1, 2, ..., 65535, through every wrap of the counter. */
  lemma NextId(last: uint32)
    ensures Low16(Advance(last)) == Low16(last) % 0xFFFF + 1
  {
    var high, low := last / 0x1_0000, last % 0x1_0000;
    assert last == 0x1_0000 * high + low;
    if low == 0xFFFF {
      assert last + 1 == 0x1_0000 * (high + 1);
    }
  }

  /** One step of the closed form. */
  lemma CycleStep(offset: nat)
    ensures (offset % 0xFFFF + 1) % 0xFFFF + 1 == (offset + 1) % 0xFFFF + 1
  {
    var q, r := offset / 0xFFFF, offset % 0xFFFF;
    assert offset == 0xFFFF * q + r;
    if r + 1 == 0xFFFF {
      assert offset + 1 == 0xFFFF * (q + 1);
    } else {
      assert offset + 1 == 0xFFFF * q + (r + 1);
    }
  }

  /** The closed form, for any number of calls from any counter. */
  lemma {:induction false} NthClosed(last: uint32, k: nat)
    ensures Nth(last, k) == (Nth(last, 0) - 1 + k) % 0xFFFF + 1
  {
    if k > 0 {
      NthClosed(last, k - 1);
      NextId(After(last, k));
      CycleStep(Nth(last, 0) - 1 + (k - 1));
    } else {
      assert Nth(last, 0) == Low16(Advance(After(last, 0)));
    }
  }

  lemma SmallResidues(a: nat, e: nat)
    requires e < 0xFFFF
    ensures a % 0xFFFF == (a + e) % 0xFFFF <==> e == 0
  {
    var q, r := a / 0xFFFF, a % 0xFFFF;
    assert a + e == 0xFFFF * q + (r + e);
    if r + e < 0xFFFF {
      assert (a + e) / 0xFFFF == q;
    } else {
      assert (a + e) / 0xFFFF == q + 1;
    }
  }

  lemma MultipleAdded(v: nat, n: nat)
    ensures (v + 0xFFFF * n) % 0xFFFF == v % 0xFFFF
  {
    var q, r := v / 0xFFFF, v % 0xFFFF;
    assert v + 0xFFFF * n == 0xFFFF * (q + n) + r;
  }

  /** Identifiers are never 0, and two are equal exactly when their calls are a multiple of 65535 apart. */
  lemma WindowDistinct(last: uint32, i: nat, d: nat)
    ensures Nth(last, i) != 0
    ensures Nth(last, i) == Nth(last, i + d) <==> d % 0xFFFF == 0
  {
    NthClosed(last, i);
    NthClosed(last, i + d);
    var a, e := Nth(last, 0) - 1 + i, d % 0xFFFF;
    SmallResidues(a, e);
    MultipleAdded(a + e, d / 0xFFFF);
    assert a + d == a + e + 0xFFFF * (d / 0xFFFF);
  }

  /** The low bits that add number k, counted from 0, returns to whichever caller made it. */
  function Ticket(last: uint32, k: nat): uint16 {
    Low16((last + 1 + k) % 0x1_0000_0000)
  }

  lemma WrapKeepsLow(v: nat)
    ensures v % 0x1_0000_0000 % 0x1_0000 == v % 0x1_0000
  {
    var q, r := v / 0x1_0000_0000, v % 0x1_0000_0000;
    assert v == 0x1_0000 * (0x1_0000 * q) + r;
    var h, l := r / 0x1_0000, r % 0x1_0000;
    assert v == 0x1_0000 * (0x1_0000 * q + h) + l;
  }

  /**
   Concurrent callers, whose adds interleave in any way: among 65536 consecutive adds
   no two callers get the same low bits, so no two get the same identifier and no caller sees zero twice.
   */
  lemma TicketsDistinct(last: uint32, i: nat, j: nat)
    requires i < j < i + 0x1_0000
    ensures Ticket(last, i) != Ticket(last, j)
  {
    WrapKeepsLow(last + 1 + i);
    WrapKeepsLow(last + 1 + j);
    var a, d := last + 1 + i, j - i;
    var q, r := a / 0x1_0000, a % 0x1_0000;
    assert a + d == 0x1_0000 * q + (r + d);
    if r + d < 0x1_0000 {
      assert (a + d) / 0x1_0000 == q;
    } else {
      assert (a + d) / 0x1_0000 == q + 1;
    }
  }
}
