/**
 Length-prefixed strings (packet.go): packing, and unpacking with Go's conversion of
 bytes to runes and back, which replaces ill-formed UTF-8 by U+FFFD.
 */
module Utf8 {
  import opened Bytes

  // ---- Go's rune conversion ----

  const REPLACEMENT: nat := 0xFFFD

  predicate Continues(s: seq<byte>, i: nat, low: byte, high: byte) {
    i < |s| && low <= s[i] <= high
  }

  /** The rune at the start of a non-empty byte string and its width, as Go decodes it. */
  datatype Rune = Rune(value: nat, width: nat)

  /** Second-byte bounds for a three- or four-byte lead byte: they shut out overlong forms and surrogates. */
  function SecondLow(lead: byte): byte {
    if lead == 0xE0 then 0xA0 else if lead == 0xF0 then 0x90 else 0x80
  }

  function SecondHigh(lead: byte): byte {
    if lead == 0xED then 0x9F else if lead == 0xF4 then 0x8F else 0xBF
  }

  function Two(b0: int, b1: int): int {
    (b0 - 0xC0) * 0x40 + (b1 - 0x80)
  }

  function Three(b0: int, b1: int, b2: int): int {
    (b0 - 0xE0) * 0x1000 + (b1 - 0x80) * 0x40 + (b2 - 0x80)
  }

  function Four(b0: int, b1: int, b2: int, b3: int): int {
    (b0 - 0xF0) * 0x4_0000 + (b1 - 0x80) * 0x1000 + (b2 - 0x80) * 0x40 + (b3 - 0x80)
  }

  function DecodeRune(s: seq<byte>): (r: Rune)
    requires s != []
    ensures 1 <= r.width <= |s|
  {
    var b: int := s[0];
    if b < 0x80 then Rune(b, 1)
    else if 0xC2 <= b <= 0xDF && Continues(s, 1, 0x80, 0xBF) then Rune(Two(b, s[1]), 2)
    else if 0xE0 <= b <= 0xEF && Continues(s, 1, SecondLow(b), SecondHigh(b)) && Continues(s, 2, 0x80, 0xBF) then
      Rune(Three(b, s[1], s[2]), 3)
    else if 0xF0 <= b <= 0xF4 && Continues(s, 1, SecondLow(b), SecondHigh(b)) && Continues(s, 2, 0x80, 0xBF)
            && Continues(s, 3, 0x80, 0xBF) then
      Rune(Four(b, s[1], s[2], s[3]), 4)
    else Rune(REPLACEMENT, 1)
  }

  /** Whether the rune at the start is well-formed rather than a replacement. */
  predicate WellFormed(s: seq<byte>)
    requires s != []
  {
    var r := DecodeRune(s);
    !(r.value == REPLACEMENT && r.width == 1)
  }

  function EncodeRune(r: nat): seq<byte>
    requires r <= 0x10_FFFF
  {
    if r < 0x80 then [r]
    else if r < 0x800 then [0xC0 + r / 0x40, 0x80 + r % 0x40]
    else if r < 0x1_0000 then [0xE0 + r / 0x1000, 0x80 + r / 0x40 % 0x40, 0x80 + r % 0x40]
    else [0xF0 + r / 0x4_0000, 0x80 + r / 0x1000 % 0x40, 0x80 + r / 0x40 % 0x40, 0x80 + r % 0x40]
  }

  /** `[]rune(string(b))`. */
  function Runes(s: seq<byte>): seq<nat> {
    if s == [] then [] else [DecodeRune(s).value] + Runes(s[DecodeRune(s).width..])
  }

  /** `string(rs)`. */
  function Encoded(rs: seq<nat>): seq<byte>
    requires forall i :: 0 <= i < |rs| ==> rs[i] <= 0x10_FFFF
  {
    if rs == [] then [] else EncodeRune(rs[0]) + Encoded(rs[1..])
  }

  predicate ValidUtf8(s: seq<byte>) {
    s == [] || (WellFormed(s) && ValidUtf8(s[DecodeRune(s).width..]))
  }

  /** A decoded rune is a Unicode scalar value: never a surrogate. */
  lemma RuneRange(s: seq<byte>)
    requires s != []
    ensures DecodeRune(s).value <= 0x10_FFFF
    ensures !(0xD800 <= DecodeRune(s).value <= 0xDFFF)
  {
  }

  /** One base-64 digit. */
  lemma Digit(high: nat, low: nat)
    requires low < 0x40
    ensures (high * 0x40 + low) / 0x40 == high && (high * 0x40 + low) % 0x40 == low
  {
  }

  lemma Shifts(r: nat)
    ensures r / 0x1000 == r / 0x40 / 0x40 && r / 0x4_0000 == r / 0x40 / 0x40 / 0x40
  {
  }

  lemma EncodeTwo(b0: byte, b1: byte)
    requires 0xC2 <= b0 <= 0xDF && 0x80 <= b1 <= 0xBF
    ensures 0x80 <= Two(b0, b1) < 0x800 && EncodeRune(Two(b0, b1)) == [b0, b1]
  {
    Digit(b0 - 0xC0, b1 - 0x80);
  }

  lemma EncodeThree(b0: byte, b1: byte, b2: byte)
    requires 0xE0 <= b0 <= 0xEF && SecondLow(b0) <= b1 <= SecondHigh(b0) && 0x80 <= b2 <= 0xBF
    ensures 0x800 <= Three(b0, b1, b2) < 0x1_0000 && EncodeRune(Three(b0, b1, b2)) == [b0, b1, b2]
  {
    var a: int, b: int, c: int := b0 - 0xE0, b1 - 0x80, b2 - 0x80;
    var h := a * 0x40 + b;
    assert Three(b0, b1, b2) == h * 0x40 + c;
    Digit(h, c);
    Digit(a, b);
    Shifts(h * 0x40 + c);
  }

  lemma EncodeFour(b0: byte, b1: byte, b2: byte, b3: byte)
    requires 0xF0 <= b0 <= 0xF4 && SecondLow(b0) <= b1 <= SecondHigh(b0) && 0x80 <= b2 <= 0xBF && 0x80 <= b3 <= 0xBF
    ensures 0x1_0000 <= Four(b0, b1, b2, b3) <= 0x10_FFFF && EncodeRune(Four(b0, b1, b2, b3)) == [b0, b1, b2, b3]
  {
    var a: int, b: int, c: int, d: int := b0 - 0xF0, b1 - 0x80, b2 - 0x80, b3 - 0x80;
    var g := a * 0x40 + b;
    var h := g * 0x40 + c;
    assert Four(b0, b1, b2, b3) == h * 0x40 + d;
    Digit(h, d);
    Digit(g, c);
    Digit(a, b);
    Shifts(h * 0x40 + d);
  }

  /** Encoding a well-formed rune restores its bytes; a replaced byte becomes EF BF BD. */
  lemma EncodeDecoded(s: seq<byte>)
    requires s != []
    ensures var r := DecodeRune(s);
            r.value <= 0x10_FFFF &&
            EncodeRune(r.value) == if WellFormed(s) then s[..r.width] else [0xEF, 0xBF, 0xBD]
  {
    var r := DecodeRune(s);
    RuneRange(s);
    if WellFormed(s) {
      if r.width == 1 {
        assert s[..1] == [s[0]];
      } else if r.width == 2 {
        EncodeTwo(s[0], s[1]);
        assert s[..2] == [s[0], s[1]];
      } else if r.width == 3 {
        EncodeThree(s[0], s[1], s[2]);
        assert s[..3] == [s[0], s[1], s[2]];
      } else {
        EncodeFour(s[0], s[1], s[2], s[3]);
        assert s[..4] == [s[0], s[1], s[2], s[3]];
      }
    }
  }

  lemma {:induction false} RunesRange(s: seq<byte>)
    ensures forall i :: 0 <= i < |Runes(s)| ==> Runes(s)[i] <= 0x10_FFFF && !(0xD800 <= Runes(s)[i] <= 0xDFFF)
    decreases |s|
  {
    if s != [] {
      RuneRange(s);
      RunesRange(s[DecodeRune(s).width..]);
    }
  }

  /** The string Go makes of a byte string. */
  function Normalised(s: seq<byte>): seq<byte> {
    RunesRange(s);
    Encoded(Runes(s))
  }

  lemma NormalisedStep(s: seq<byte>)
    requires s != []
    ensures var w := DecodeRune(s).width;
            Normalised(s) == (if WellFormed(s) then s[..w] else [0xEF, 0xBF, 0xBD]) + Normalised(s[w..])
  {
    EncodeDecoded(s);
    RunesRange(s);
    assert Runes(s)[1..] == Runes(s[DecodeRune(s).width..]);
  }

  /** The encoding of U+FFFD itself is well-formed. */
  lemma IllFormedStart(s: seq<byte>)
    requires s != [] && !WellFormed(s)
    ensures |s| < 3 || s[0] != 0xEF || s[1] != 0xBF || s[2] != 0xBD
  {
  }

  // ---- Well-formed text is encoded text ----

  /** A Unicode scalar value: a code point that is no surrogate. */
  predicate Scalar(r: nat) {
    r <= 0x10_FFFF && !(0xD800 <= r <= 0xDFFF)
  }

  lemma ThreeDigits(r: nat)
    requires r < 0x1_0000
    ensures var a, b, c := r / 0x1000, r / 0x40 % 0x40, r % 0x40; a < 0x10 && r == a * 0x1000 + b * 0x40 + c
  {
    Shifts(r);
    assert r == r / 0x40 * 0x40 + r % 0x40;
    assert r / 0x40 == r / 0x40 / 0x40 * 0x40 + r / 0x40 % 0x40;
  }

  lemma FourDigits(r: nat)
    requires r <= 0x10_FFFF
    ensures var a, b, c, d := r / 0x4_0000, r / 0x1000 % 0x40, r / 0x40 % 0x40, r % 0x40;
            a <= 4 && r == a * 0x4_0000 + b * 0x1000 + c * 0x40 + d
  {
    Shifts(r);
    assert r == r / 0x40 * 0x40 + r % 0x40;
    assert r / 0x40 == r / 0x1000 * 0x40 + r / 0x40 % 0x40;
    assert r / 0x1000 == r / 0x4_0000 * 0x40 + r / 0x1000 % 0x40;
  }

  lemma DecodeTwo(r: nat, rest: seq<byte>)
    requires 0x80 <= r < 0x800
    ensures DecodeRune(EncodeRune(r) + rest) == Rune(r, 2)
  {
    var s := EncodeRune(r) + rest;
    assert s[0] == 0xC0 + r / 0x40 && s[1] == 0x80 + r % 0x40;
    assert 2 <= r / 0x40 < 0x20;
  }

  lemma DecodeThree(r: nat, rest: seq<byte>)
    requires 0x800 <= r < 0x1_0000 && Scalar(r)
    ensures DecodeRune(EncodeRune(r) + rest) == Rune(r, 3)
  {
    var s := EncodeRune(r) + rest;
    var a, b, c := r / 0x1000, r / 0x40 % 0x40, r % 0x40;
    ThreeDigits(r);
    assert s[0] == 0xE0 + a && s[1] == 0x80 + b && s[2] == 0x80 + c;
    assert a == 0 ==> b >= 0x20;
    assert a == 0xD ==> b < 0x20;
  }

  lemma DecodeFour(r: nat, rest: seq<byte>)
    requires 0x1_0000 <= r <= 0x10_FFFF
    ensures DecodeRune(EncodeRune(r) + rest) == Rune(r, 4)
  {
    var s := EncodeRune(r) + rest;
    var a, b, c, d := r / 0x4_0000, r / 0x1000 % 0x40, r / 0x40 % 0x40, r % 0x40;
    FourDigits(r);
    assert s[0] == 0xF0 + a && s[1] == 0x80 + b && s[2] == 0x80 + c && s[3] == 0x80 + d;
    assert a == 0 ==> b >= 0x10;
    assert a == 4 ==> b < 0x10;
  }

  /** Decoding reads back every encoded scalar value, whatever follows. */
  lemma DecodeEncoded(r: nat, rest: seq<byte>)
    requires Scalar(r)
    ensures DecodeRune(EncodeRune(r) + rest) == Rune(r, |EncodeRune(r)|) && WellFormed(EncodeRune(r) + rest)
  {
    if r < 0x80 {
      assert (EncodeRune(r) + rest)[0] == r;
    } else if r < 0x800 {
      DecodeTwo(r, rest);
    } else if r < 0x1_0000 {
      DecodeThree(r, rest);
    } else {
      DecodeFour(r, rest);
    }
  }

  predicate Scalars(rs: seq<nat>) {
    forall i :: 0 <= i < |rs| ==> Scalar(rs[i])
  }

  lemma {:induction false} EncodedValid(rs: seq<nat>)
    requires Scalars(rs)
    ensures Runes(Encoded(rs)) == rs && ValidUtf8(Encoded(rs))
  {
    if rs != [] {
      var tail := Encoded(rs[1..]);
      var s := EncodeRune(rs[0]) + tail;
      DecodeEncoded(rs[0], tail);
      assert s[|EncodeRune(rs[0])|..] == tail;
      EncodedValid(rs[1..]);
      assert rs == [rs[0]] + rs[1..];
    }
  }

  /** Well-formed text is exactly the encoding of a sequence of scalar values. */
  lemma ValidExact(s: seq<byte>)
    ensures ValidUtf8(s) <==> exists rs: seq<nat> :: Scalars(rs) && Encoded(rs) == s
  {
    if ValidUtf8(s) {
      NormalisedExact(s);
      RunesRange(s);
      assert Scalars(Runes(s)) && Encoded(Runes(s)) == s;
    }
    forall rs: seq<nat> | Scalars(rs) && Encoded(rs) == s ensures ValidUtf8(s) {
      EncodedValid(rs);
    }
  }

  lemma ReplacedDiffers(s: seq<byte>, tail: seq<byte>)
    requires |s| < 3 || s[0] != 0xEF || s[1] != 0xBF || s[2] != 0xBD
    ensures [0xEF, 0xBF, 0xBD] + tail != s
  {
    var t: seq<byte> := [0xEF, 0xBF, 0xBD] + tail;
    assert |t| >= 3 && t[0] == 0xEF && t[1] == 0xBF && t[2] == 0xBD;
  }

  lemma SamePrefix(s: seq<byte>, w: nat, tail: seq<byte>)
    requires w <= |s|
    ensures s[..w] + tail == s <==> tail == s[w..]
  {
    assert (s[..w] + tail)[w..] == tail;
    assert s == s[..w] + s[w..];
  }

  /** The conversion is the identity exactly on well-formed UTF-8. */
  lemma {:induction false} NormalisedExact(s: seq<byte>)
    ensures Normalised(s) == s <==> ValidUtf8(s)
    decreases |s|
  {
    if s != [] {
      var w := DecodeRune(s).width;
      var tail := Normalised(s[w..]);
      NormalisedStep(s);
      NormalisedExact(s[w..]);
      if WellFormed(s) {
        SamePrefix(s, w, tail);
      } else {
        IllFormedStart(s);
        ReplacedDiffers(s, tail);
      }
    }
  }

  // ---- Length-prefixed strings ----

  /** `appendUint16`: high byte first, as section 1.5.2 of MQTT 3.1.1 has it. */
  function PackUint16(v: uint16): (r: seq<byte>)
    ensures |r| == 2 && r[0] as int * 0x100 + r[1] as int == v
  {
    [v / 0x100, v % 0x100]
  }

  function UnpackUint16(b: seq<byte>): (v: uint16)
    requires |b| >= 2
    ensures v == b[0] as int * 0x100 + b[1] as int
  {
    b[0] as int * 0x100 + b[1] as int
  }

  lemma PackUnpackUint16(b: seq<byte>)
    requires |b| >= 2
    ensures PackUint16(UnpackUint16(b)) == b[..2]
  {
    assert b[..2] == [b[0], b[1]];
  }

  /** `appendBytes(nil, s)`: panics when the length does not fit. */
  function PackBytes(s: seq<byte>): Outcome<seq<byte>> {
    if |s| > 0xFFFF then Panic else Ok(PackUint16(|s|) + s)
  }

  datatype Unpacked = Unpacked(consumed: nat, text: seq<byte>)

  /** What `unpackString` returns. */
  function UnpackSpec(b: seq<byte>): Outcome<Unpacked> {
    if |b| < 2 then Err(InvalidPacketLength)
    else
      var n := UnpackUint16(b);
      if n + 2 > |b| then Err(InvalidPacketLength)
      else if 0 in Runes(b[2..n + 2]) then Err(InvalidRune)
      else Ok(Unpacked(n + 2, Normalised(b[2..n + 2])))
  }

  lemma UnpackedText(b: seq<byte>)
    requires UnpackSpec(b).Ok?
    ensures |b| >= 2 && UnpackUint16(b) + 2 <= |b|
    ensures UnpackSpec(b).value == Unpacked(UnpackUint16(b) + 2, Normalised(b[2..UnpackUint16(b) + 2]))
  {
  }

  /** `unpackString`: the loop over the runes looks for U+0000 and surrogates. */
  method UnpackString(b: seq<byte>) returns (r: Outcome<Unpacked>)
    ensures r == UnpackSpec(b)
  {
    if |b| < 2 {
      return Err(InvalidPacketLength);
    }
    var n := UnpackUint16(b);
    if n + 2 > |b| {
      return Err(InvalidPacketLength);
    }
    var text := b[2..n + 2];
    var rs := Runes(text);
    RunesRange(text);
    var i := 0;
    while i < |rs|
      invariant 0 <= i <= |rs| && 0 !in rs[..i]
    {
      if rs[i] == 0 || 0xD800 <= rs[i] <= 0xDFFF {
        return Err(InvalidRune);
      }
      i := i + 1;
    }
    assert rs[..i] == rs;
    return Ok(Unpacked(n + 2, Normalised(text)));
  }

  /** U+0000 is decoded exactly from a zero byte. */
  lemma {:induction false} ZeroRune(s: seq<byte>)
    ensures 0 in Runes(s) <==> 0 in s
    decreases |s|
  {
    if s != [] {
      var r := DecodeRune(s);
      ZeroRune(s[r.width..]);
      assert s == s[..r.width] + s[r.width..];
      assert r.width > 1 ==> forall i :: 0 <= i < r.width ==> s[i] != 0;
      assert 0 in s[..r.width] <==> r.value == 0;
    }
  }

  /** A topic that survives: well-formed UTF-8 without U+0000. */
  predicate CleanText(s: seq<byte>) {
    ValidUtf8(s) && 0 !in s
  }

  /** Unpacking a packed string gives it back if and only if it is clean; nothing else is consumed. */
  lemma StringRoundTrip(s: seq<byte>, rest: seq<byte>)
    requires |s| <= 0xFFFF
    ensures var u := UnpackSpec(PackBytes(s).value + rest);
            (u == Ok(Unpacked(|s| + 2, s)) <==> CleanText(s)) &&
            (0 in s <==> u == Err(InvalidRune)) && (0 !in s ==> u == Ok(Unpacked(|s| + 2, Normalised(s))))
  {
    var b := PackBytes(s).value + rest;
    assert b[2..|s| + 2] == s;
    assert UnpackUint16(b) == |s|;
    ZeroRune(s);
    NormalisedExact(s);
  }
}
