/**
 Machine values shared by every part of the model: bytes, unsigned 16-bit
 numbers, and the three ways a Go call can end (a value, an error, a panic).
 */
module Bytes {
  type byte = x: int | 0 <= x < 0x100
  type uint16 = x: int | 0 <= x < 0x1_0000

  datatype Error =
    | EOF
    | UnexpectedEOF
    | InvalidPacket
    | InvalidPacketLength
    | InvalidRune
    | InvalidTopicFilter

  datatype Option<+T> = Some(value: T) | None

  datatype Outcome<+T> = Ok(value: T) | Err(error: Error) | Panic {
    predicate IsFailure() {
      !Ok?
    }

    function PropagateFailure<U>(): Outcome<U>
      requires IsFailure()
    {
      if Err? then Err(error) else Panic
    }

    function Extract(): T
      requires !IsFailure()
    {
      value
    }
  }

  /** `b | 0x80` on a byte. */
  function SetTop(b: byte): byte {
    if b < 0x80 then b + 0x80 else b
  }

  /** `b & 0x7F` on a byte. */
  function Low7(b: byte): byte {
    b % 0x80
  }

  /** `b & mask != 0` for a one-bit mask. */
  predicate HasBit(b: byte, mask: byte)
    requires mask in {0x01, 0x02, 0x04, 0x08, 0x10, 0x20, 0x40, 0x80}
  {
    b / mask % 2 == 1
  }

  /** `b | mask` for a one-bit mask. */
  function SetBit(b: byte, mask: byte): byte
    requires mask in {0x01, 0x02, 0x04, 0x08, 0x10, 0x20, 0x40, 0x80}
  {
    if HasBit(b, mask) then b
    else
      assert b + mask < 0x100;
      b + mask
  }

  /** The concatenation of a list of sequences. */
  function Flatten<T>(parts: seq<seq<T>>): seq<T> {
    if parts == [] then [] else parts[0] + Flatten(parts[1..])
  }

  lemma {:induction false} FlattenAppend<T>(parts: seq<seq<T>>, last: seq<T>)
    ensures Flatten(parts + [last]) == Flatten(parts) + last
  {
    if parts == [] {
      assert parts + [last] == [last];
      assert Flatten([last]) == last + Flatten([]);
    } else {
      assert (parts + [last])[1..] == parts[1..] + [last];
      FlattenAppend(parts[1..], last);
    }
  }

  lemma Associate<T>(a: seq<T>, b: seq<T>, c: seq<T>)
    ensures (a + b) + c == a + (b + c)
  {
  }

  lemma PrefixCons<T>(x: T, a: seq<T>, b: seq<T>)
    requires a <= b
    ensures [x] + a <= [x] + b
  {
  }

  predicate NoDuplicates<T(==)>(s: seq<T>) {
    forall i, j :: 0 <= i < j < |s| ==> s[i] != s[j]
  }
}
