/**
 The fixed header and the remaining length field (packet.go, serve.go): packing
 packets and reading them back from a byte stream.
 */
module Framing {
  import opened Bytes
  import opened Messages

  // ---- The remaining length field ----

  /** `remainingLength` on a length that is not negative. */
  function RemainingLength(n: nat): Outcome<seq<byte>> {
    if n <= 0x7F then Ok([n % 0x100])
    else if n <= 0x3FFF then Ok([SetTop(n % 0x100), Low7(n / 0x80 % 0x100)])
    else if n <= 0x1F_FFFF then
      Ok([SetTop(n % 0x100), SetTop(n / 0x80 % 0x100), Low7(n / 0x4000 % 0x100)])
    else if n <= 0xFFF_FFFF then
      Ok([SetTop(n % 0x100), SetTop(n / 0x80 % 0x100), SetTop(n / 0x4000 % 0x100), Low7(n / 0x20_0000 % 0x100)])
    else Panic
  }

  /** The encoding of section 2.2.3: digits in base 128, least significant first. */
  function Digits(n: nat): seq<byte> {
    if n < 0x80 then [n] else [n % 0x80 + 0x80] + Digits(n / 0x80)
  }

  /** The number a field denotes. */
  function Value(field: seq<byte>): nat {
    if field == [] then 0 else Low7(field[0]) + 0x80 * Value(field[1..])
  }

  /** A complete field: every byte but the last announces another one. */
  predicate IsField(field: seq<byte>) {
    field != [] && field[|field| - 1] < 0x80 && forall i :: 0 <= i < |field| - 1 ==> field[i] >= 0x80
  }

  lemma ByteDigits(n: nat)
    ensures SetTop(n % 0x100) == n % 0x80 + 0x80 && Low7(n % 0x100) == n % 0x80
    ensures n < 0x80 ==> Digits(n) == [Low7(n % 0x100)]
    ensures n >= 0x80 ==> Digits(n) == [SetTop(n % 0x100)] + Digits(n / 0x80)
  {
    ByteMod(n);
  }

  lemma ByteMod(n: nat)
    ensures n % 0x100 % 0x80 == n % 0x80
    ensures n % 0x100 < 0x80 ==> n % 0x100 == n % 0x80
    ensures n % 0x100 >= 0x80 ==> n % 0x100 == n % 0x80 + 0x80
  {
    var q, r := n / 0x100, n % 0x100;
    assert n == 0x100 * q + r;
    if r < 0x80 {
      assert n / 0x80 == 2 * q;
    } else {
      assert n / 0x80 == 2 * q + 1;
    }
  }

  /** The shift-and-mask code writes the base-128 digits, and panics exactly beyond four of them. */
  lemma RemainingLengthDigits(n: nat)
    ensures RemainingLength(n) == if n <= MAX_REMAINING then Ok(Digits(n)) else Panic
  {
    var a, b, c := n / 0x80, n / 0x4000, n / 0x20_0000;
    assert a / 0x80 == b && b / 0x80 == c;
    ByteDigits(n);
    ByteDigits(a);
    ByteDigits(b);
    ByteDigits(c);
    if 0x80 <= n <= 0x3FFF {
      assert Digits(n) == [SetTop(n % 0x100), Low7(a % 0x100)];
    } else if 0x3FFF < n <= 0x1F_FFFF {
      assert Digits(n) == [SetTop(n % 0x100), SetTop(a % 0x100), Low7(b % 0x100)];
    } else if 0x1F_FFFF < n <= MAX_REMAINING {
      assert Digits(n) == [SetTop(n % 0x100), SetTop(a % 0x100), SetTop(b % 0x100), Low7(c % 0x100)];
    }
  }

  lemma {:induction false} DigitsField(n: nat)
    ensures IsField(Digits(n)) && Value(Digits(n)) == n
  {
    if n < 0x80 {
      assert Digits(n)[1..] == [];
    } else {
      DigitsField(n / 0x80);
      assert Digits(n)[1..] == Digits(n / 0x80);
    }
  }

  /** No complete field for the same number is shorter. */
  lemma {:induction false} DigitsShortest(field: seq<byte>)
    requires IsField(field)
    ensures |Digits(Value(field))| <= |field|
  {
    if |field| > 1 {
      assert IsField(field[1..]);
      DigitsShortest(field[1..]);
      assert Value(field) / 0x80 == Value(field[1..]);
    } else {
      assert field[1..] == [];
    }
  }

  lemma DigitsLength(n: nat)
    requires n <= MAX_REMAINING
    ensures 1 <= |Digits(n)| <= 4
  {
    RemainingLengthDigits(n);
  }

  /** No field is a proper prefix of another: a reader knows where it ends. */
  lemma FieldsPrefixFree(a: seq<byte>, b: seq<byte>)
    requires IsField(a) && IsField(b) && a <= b
    ensures a == b
  {
    assert b[|a| - 1] == a[|a| - 1];
  }

  // ---- Packing ----

  /** The packet of a type byte and its contents. */
  function Packet(header: byte, body: seq<byte>): Outcome<seq<byte>> {
    if |body| <= MAX_REMAINING then Ok([header] + Digits(|body|) + body) else Panic
  }

  /** `pack`: add up the lengths, then append the parts. */
  method Pack(header: byte, contents: seq<seq<byte>>) returns (r: Outcome<seq<byte>>)
    ensures r == Packet(header, Flatten(contents))
  {
    var pkt := [header];
    var n := 0;
    var i := 0;
    while i < |contents|
      invariant 0 <= i <= |contents| && n == |Flatten(contents[..i])|
    {
      assert contents[..i + 1] == contents[..i] + [contents[i]];
      FlattenAppend(contents[..i], contents[i]);
      n := n + |contents[i]|;
      i := i + 1;
    }
    assert contents[..i] == contents;
    RemainingLengthDigits(n);
    match RemainingLength(n) {
      case Panic => return Panic;
      case Ok(length) => pkt := pkt + length;
    }
    ghost var start := pkt;
    i := 0;
    while i < |contents|
      invariant 0 <= i <= |contents| && pkt == start + Flatten(contents[..i])
    {
      assert contents[..i + 1] == contents[..i] + [contents[i]];
      FlattenAppend(contents[..i], contents[i]);
      pkt := pkt + contents[i];
      i := i + 1;
    }
    assert contents[..i] == contents;
    return Ok(pkt);
  }

  // ---- Reading ----

  /** What `readPacket` returns, with the bytes it leaves in the stream. */
  datatype Read = Read(kind: byte, flag: byte, contents: seq<byte>, rest: seq<byte>)

  /** `(x & 0x7F) << (7 * k)` in a 64-bit signed integer. */
  function Chunk(b: byte, k: nat): int {
    if k < 9 then Low7(b) * Power(k)
    else if k == 9 && b % 2 == 1 then -0x8000_0000_0000_0000
    else 0
  }

  function Power(k: nat): nat {
    if k == 0 then 1 else 0x80 * Power(k - 1)
  }

  /** `io.ReadFull` for n bytes. */
  function ReadFull(s: seq<byte>, n: nat): Outcome<seq<byte>> {
    if n <= |s| then Ok(s[..n]) else if s == [] then Err(EOF) else Err(UnexpectedEOF)
  }

  /** Number of bytes of the field at the start of the stream, or 0 if it does not end. */
  function FieldEnd(s: seq<byte>): (n: nat)
    ensures n <= |s|
    ensures n > 0 ==> IsField(s[..n])
    ensures n == 0 ==> forall i :: 0 <= i < |s| ==> s[i] >= 0x80
  {
    if s == [] then 0
    else if s[0] < 0x80 then 1
    else
      var n := FieldEnd(s[1..]);
      if n == 0 then 0
      else
        assert s[..n + 1][1..] == s[1..][..n];
        n + 1
  }

  /** The length the decoder's loop accumulates from a field. */
  function Accumulated(field: seq<byte>): int {
    if field == [] then 0
    else Accumulated(field[..|field| - 1]) + Chunk(field[|field| - 1], |field| - 1)
  }

  /** Reading the contents, once the length is known. */
  function Finish(header: byte, length: int, tail: seq<byte>): Outcome<Read> {
    if length < 0 then Panic
    else
      match ReadFull(tail, length)
      case Ok(contents) => Ok(Read(header / 0x10 * 0x10, header % 0x10, contents, tail[length..]))
      case Err(e) => Err(e)
      case Panic => Panic
  }

  /** What reading a packet amounts to. */
  function ReadSpec(s: seq<byte>): Outcome<Read> {
    if s == [] then Err(EOF)
    else if |s| == 1 then Err(UnexpectedEOF)
    else
      var t := s[1..];
      var n := FieldEnd(t);
      if n == 0 then Err(EOF) else Finish(s[0], Accumulated(t[..n]), t[n..])
  }

  /** A stream that starts with a header and a complete length field. */
  lemma ReadSplit(header: byte, d: seq<byte>, tail: seq<byte>)
    requires IsField(d)
    ensures ReadSpec([header] + (d + tail)) == Finish(header, Accumulated(d), tail)
  {
    var s, t := [header] + (d + tail), d + tail;
    assert s[1..] == t;
    assert t[..|d|] == d && t[|d|..] == tail;
    FieldEndIs(t, |d|);
  }

  lemma {:induction false} FieldEndIs(s: seq<byte>, n: nat)
    requires 0 < n <= |s| && IsField(s[..n])
    ensures FieldEnd(s) == n
  {
    if n > 1 {
      assert s[..n][0] == s[0] && s[..n][1..] == s[1..][..n - 1];
      FieldEndIs(s[1..], n - 1);
    } else {
      assert s[..n][0] == s[0];
    }
  }

  lemma {:induction false} NoFieldEnd(s: seq<byte>)
    requires forall i :: 0 <= i < |s| ==> s[i] >= 0x80
    ensures FieldEnd(s) == 0
  {
    if s != [] {
      NoFieldEnd(s[1..]);
    }
  }

  /** The loop of `readPacket` over the length field: how many bytes it took and what they add up to. */
  method ReadLength(t: seq<byte>) returns (n: nat, length: int)
    requires t != []
    ensures n == FieldEnd(t) && length == Accumulated(t[..n])
  {
    length, n := 0, 0;
    while true
      invariant 0 <= n < |t| && length == Accumulated(t[..n])
      invariant forall i :: 0 <= i < n ==> t[i] >= 0x80
      decreases |t| - n
    {
      var b := t[n];
      assert t[..n + 1][..n] == t[..n];
      length := length + Chunk(b, n);
      n := n + 1;
      if b < 0x80 {
        FieldEndIs(t, n);
        return;
      }
      if n == |t| {
        NoFieldEnd(t);
        return 0, 0;
      }
    }
  }

  /** `readPacket`: two bytes, then one more for as long as the length field goes on, then the contents. */
  method ReadPacket(s: seq<byte>) returns (r: Outcome<Read>)
    ensures r == ReadSpec(s)
  {
    if |s| < 2 {
      return if s == [] then Err(EOF) else Err(UnexpectedEOF);
    }
    var kind, flag := s[0] / 0x10 * 0x10, s[0] % 0x10;
    var n, length := ReadLength(s[1..]);
    if n == 0 {
      return Err(EOF);
    }
    if length < 0 {
      return Panic;
    }
    var rest := s[1..][n..];
    if length > |rest| {
      return if rest == [] then Err(EOF) else Err(UnexpectedEOF);
    }
    return Ok(Read(kind, flag, rest[..length], rest[length..]));
  }

  // ---- Reading back what was packed ----

  lemma {:induction false} ValueSnoc(field: seq<byte>, b: byte)
    ensures Value(field + [b]) == Value(field) + Low7(b) * Power(|field|)
  {
    if field == [] {
      assert field + [b] == [b] && [b][1..] == [];
    } else {
      assert (field + [b])[1..] == field[1..] + [b];
      ValueSnoc(field[1..], b);
      var p := Power(|field| - 1);
      assert 0x80 * (Low7(b) * p) == Low7(b) * (0x80 * p);
    }
  }

  /** Up to nine bytes nothing is cut off: the loop computes the number the field denotes. */
  lemma {:induction false} AccumulatedValue(field: seq<byte>)
    requires |field| <= 9
    ensures Accumulated(field) == Value(field)
  {
    if field != [] {
      var field', b := field[..|field| - 1], field[|field| - 1];
      AccumulatedValue(field');
      ValueSnoc(field', b);
      assert field == field' + [b];
    }
  }

  lemma {:induction false} ValueBound(field: seq<byte>)
    ensures Value(field) < Power(|field|)
  {
    if field != [] {
      ValueBound(field[1..]);
    }
  }

  lemma NinthPower()
    ensures Power(9) == 0x8000_0000_0000_0000
  {
    assert Power(3) == 0x20_0000;
    assert Power(6) == 0x80 * (0x80 * (0x80 * Power(3)));
    assert Power(9) == 0x80 * (0x80 * (0x80 * Power(6)));
  }

  /** The length comes out negative exactly when a tenth byte shifts a one into the sign bit. */
  lemma {:induction false} NegativeExact(field: seq<byte>)
    ensures Accumulated(field) < 0 <==> |field| >= 10 && field[9] % 2 == 1
  {
    if |field| <= 9 {
      AccumulatedValue(field);
    } else {
      var front := field[..|field| - 1];
      if |field| == 10 {
        AccumulatedValue(front);
        ValueBound(front);
        NinthPower();
      } else {
        NegativeExact(front);
      }
    }
  }

  /** Reading a packed packet gives back its type, flag and contents, and exactly the rest of the stream. */
  lemma ReadPacked(header: byte, body: seq<byte>, rest: seq<byte>)
    requires |body| <= MAX_REMAINING
    ensures ReadSpec(Packet(header, body).value + rest)
            == Ok(Read(header / 0x10 * 0x10, header % 0x10, body, rest))
  {
    var d, tail := Digits(|body|), body + rest;
    DigitsField(|body|);
    DigitsLength(|body|);
    AccumulatedValue(d);
    ReadSplit(header, d, tail);
    assert tail[..|body|] == body && tail[|body|..] == rest;
    Associate([header] + d, body, rest);
    Associate([header], d, tail);
  }

  lemma Nibbles(kind: byte, flag: byte)
    requires kind % 0x10 == 0 && flag < 0x10
    ensures kind + flag < 0x100 && (kind + flag) / 0x10 * 0x10 == kind && (kind + flag) % 0x10 == flag
  {
  }

  lemma ReadTyped(kind: byte, flag: byte, body: seq<byte>, rest: seq<byte>)
    requires kind % 0x10 == 0 && flag < 0x10 && |body| <= MAX_REMAINING
    ensures Packet(kind + flag, body).Ok?
    ensures ReadSpec(Packet(kind + flag, body).value + rest) == Ok(Read(kind, flag, body, rest))
  {
    Nibbles(kind, flag);
    ReadPacked(kind + flag, body, rest);
  }

  /** A packet on its own. */
  lemma ReadAlone(kind: byte, flag: byte, body: seq<byte>)
    requires kind % 0x10 == 0 && flag < 0x10 && |body| <= MAX_REMAINING
    ensures Packet(kind + flag, body).Ok?
    ensures ReadSpec(Packet(kind + flag, body).value) == Ok(Read(kind, flag, body, []))
  {
    ReadTyped(kind, flag, body, []);
    var b := Packet(kind + flag, body).value;
    assert b + [] == b;
  }

  lemma ReadCutField(header: byte, d: seq<byte>, n: nat)
    requires IsField(d) && 0 < n < |d|
    ensures ReadSpec([header] + d[..n]) == Err(EOF)
  {
    assert ([header] + d[..n])[1..] == d[..n];
    NoFieldEnd(d[..n]);
  }

  /**
   Every strict prefix of a packed packet is refused: with EOF where a read finds nothing, before
   the packet, within the length field or right after it, and else with an unexpected EOF.
   */
  lemma ReadTruncated(header: byte, body: seq<byte>, n: nat)
    requires |body| <= MAX_REMAINING && n < |Packet(header, body).value|
    ensures ReadSpec(Packet(header, body).value[..n])
            == if n == 0 || 2 <= n <= 1 + |Digits(|body|)| then Err(EOF) else Err(UnexpectedEOF)
  {
    var d := Digits(|body|);
    var s := Packet(header, body).value[..n];
    DigitsField(|body|);
    DigitsLength(|body|);
    if n > |d| {
      var part := body[..n - 1 - |d|];
      AccumulatedValue(d);
      ReadSplit(header, d, part);
      assert s == ([header] + d) + part;
      Associate([header], d, part);
    } else if n >= 2 {
      assert s == [header] + d[..n - 1];
      ReadCutField(header, d, n - 1);
    }
  }

  // ---- Streams ----

  /** Type, flag and contents of a packet. */
  type Parts = (byte, byte, seq<byte>)

  datatype Received = Received(packets: seq<Parts>, end: Outcome<Read>)

  lemma ReadShrinks(s: seq<byte>)
    ensures ReadSpec(s).Ok? ==> |ReadSpec(s).value.rest| < |s|
  {
  }

  /** Reading packets until one fails. */
  function ReadAll(s: seq<byte>): Received
    decreases |s|
  {
    ReadShrinks(s);
    match ReadSpec(s)
    case Ok(p) =>
      var more := ReadAll(p.rest);
      Received([(p.kind, p.flag, p.contents)] + more.packets, more.end)
    case e => Received([], e)
  }

  /** Outcomes of a stream that ran out. */
  predicate RanOut(r: Outcome<Read>) {
    r == Err(EOF) || r == Err(UnexpectedEOF)
  }

  /** Bytes that a reader takes as exactly one packet, whatever follows, and never as another one. */
  ghost predicate Delimited(bytes: seq<byte>, parts: Parts) {
    (forall rest: seq<byte> :: ReadSpec(bytes + rest) == Ok(Read(parts.0, parts.1, parts.2, rest))) &&
    (forall n: nat :: n < |bytes| ==> RanOut(ReadSpec(bytes[..n])))
  }

  datatype Block = Block(bytes: seq<byte>, parts: Parts)

  ghost predicate AllDelimited(blocks: seq<Block>) {
    forall i :: 0 <= i < |blocks| ==> Delimited(blocks[i].bytes, blocks[i].parts)
  }

  function Joined(blocks: seq<Block>): seq<byte> {
    if blocks == [] then [] else blocks[0].bytes + Joined(blocks[1..])
  }

  function PartsOf(blocks: seq<Block>): seq<Parts> {
    if blocks == [] then [] else [blocks[0].parts] + PartsOf(blocks[1..])
  }

  lemma ReadFirst(b: Block, rest: seq<byte>)
    requires Delimited(b.bytes, b.parts)
    ensures ReadAll(b.bytes + rest).packets == [b.parts] + ReadAll(rest).packets
    ensures ReadAll(b.bytes + rest).end == ReadAll(rest).end
  {
    var s := b.bytes + rest;
    assert ReadSpec(s) == Ok(Read(b.parts.0, b.parts.1, b.parts.2, rest));
  }

  lemma ReadNone(b: Block, n: nat)
    requires Delimited(b.bytes, b.parts) && n < |b.bytes|
    ensures ReadAll(b.bytes[..n]).packets == [] && RanOut(ReadAll(b.bytes[..n]).end)
  {
    var s := b.bytes[..n];
    assert RanOut(ReadSpec(s));
  }

  lemma CutConcat(a: seq<byte>, b: seq<byte>, n: nat)
    requires n <= |a| + |b|
    ensures (a + b)[..n] == if n < |a| then a[..n] else a + b[..n - |a|]
  {
  }

  /** A stream of blocks cut at any byte reads as the blocks that fit, then as a stream that ran out. */
  lemma {:induction false} CutBlocks(blocks: seq<Block>, n: nat)
    requires AllDelimited(blocks) && n <= |Joined(blocks)|
    ensures ReadAll(Joined(blocks)[..n]).packets <= PartsOf(blocks)
    ensures RanOut(ReadAll(Joined(blocks)[..n]).end)
  {
    if blocks == [] {
      assert Joined(blocks)[..n] == [];
    } else {
      var b, more := blocks[0], Joined(blocks[1..]);
      CutConcat(b.bytes, more, n);
      if n < |b.bytes| {
        ReadNone(b, n);
      } else {
        var k := n - |b.bytes|;
        ReadFirst(b, more[..k]);
        CutBlocks(blocks[1..], k);
        PrefixCons(b.parts, ReadAll(more[..k]).packets, PartsOf(blocks[1..]));
      }
    }
  }

  lemma {:induction false} ReadBlocks(blocks: seq<Block>)
    requires AllDelimited(blocks)
    ensures ReadAll(Joined(blocks)) == Received(PartsOf(blocks), Err(EOF))
  {
    if blocks != [] {
      ReadFirst(blocks[0], Joined(blocks[1..]));
      ReadBlocks(blocks[1..]);
    }
  }

  datatype Frame = Frame(header: byte, body: seq<byte>)

  /** The packed packet of a frame of legal size, and what it is to be read as. */
  function Packed(f: Frame): Block
    requires |f.body| <= MAX_REMAINING
  {
    Block(Packet(f.header, f.body).value, (f.header / 0x10 * 0x10, f.header % 0x10, f.body))
  }

  lemma PackedDelimited(f: Frame)
    requires |f.body| <= MAX_REMAINING
    ensures Delimited(Packed(f).bytes, Packed(f).parts)
  {
    forall rest: seq<byte>
      ensures ReadSpec(Packed(f).bytes + rest)
              == Ok(Read(Packed(f).parts.0, Packed(f).parts.1, Packed(f).parts.2, rest))
    {
      ReadPacked(f.header, f.body, rest);
    }
    forall n: nat | n < |Packed(f).bytes| ensures RanOut(ReadSpec(Packed(f).bytes[..n])) {
      ReadTruncated(f.header, f.body, n);
    }
  }

  predicate Legal(frames: seq<Frame>) {
    forall i :: 0 <= i < |frames| ==> |frames[i].body| <= MAX_REMAINING
  }

  function Blocks(frames: seq<Frame>): seq<Block>
    requires Legal(frames)
  {
    seq(|frames|, i requires 0 <= i < |frames| => Packed(frames[i]))
  }

  /** Packets written one after the other. */
  function Stream(frames: seq<Frame>): seq<byte>
    requires Legal(frames)
  {
    Joined(Blocks(frames))
  }

  lemma BlocksDelimited(frames: seq<Frame>)
    requires Legal(frames)
    ensures AllDelimited(Blocks(frames))
  {
    forall i | 0 <= i < |frames| ensures Delimited(Blocks(frames)[i].bytes, Blocks(frames)[i].parts) {
      PackedDelimited(frames[i]);
    }
  }

  /** Any concatenation of packed packets reads back as the same packets, with nothing left over. */
  lemma StreamRoundTrip(frames: seq<Frame>)
    requires Legal(frames)
    ensures ReadAll(Stream(frames)) == Received(PartsOf(Blocks(frames)), Err(EOF))
  {
    BlocksDelimited(frames);
    ReadBlocks(Blocks(frames));
  }

  /** A stream cut anywhere reads as the packets that fit, and then an end-of-file error: never another packet. */
  lemma StreamCut(frames: seq<Frame>, n: nat)
    requires Legal(frames) && n <= |Stream(frames)|
    ensures ReadAll(Stream(frames)[..n]).packets <= PartsOf(Blocks(frames))
    ensures RanOut(ReadAll(Stream(frames)[..n]).end)
  {
    BlocksDelimited(frames);
    CutBlocks(Blocks(frames), n);
  }
}
