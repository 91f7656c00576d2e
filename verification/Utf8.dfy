/**
 What counts as text: the byte sequences that encode Unicode scalar values. The encoding is given by
 arithmetic on the scalar value (section 3 of RFC 3629), independently of how bytes are recognised.
 */
module Utf8 {
  import opened Wrappers
  import opened Clipboard

  /** A code point that is no surrogate. */
  type Scalar = c: int | 0 <= c <= 0xD7FF || 0xE000 <= c <= 0x10_FFFF

  /** A continuation byte carries six bits. */
  function Continuation(n: nat): byte {
    (0x80 + n % 64) as byte
  }

  function Encode(c: Scalar): seq<byte> {
    if c < 0x80 then [c as byte]
    else if c < 0x800 then [(0xC0 + c / 64) as byte, Continuation(c)]
    else if c < 0x1_0000 then [(0xE0 + c / 0x1000) as byte, Continuation(c / 64), Continuation(c)]
    else [(0xF0 + c / 0x4_0000) as byte, Continuation(c / 0x1000), Continuation(c / 64), Continuation(c)]
  }

  function EncodeAll(cs: seq<Scalar>): seq<byte> {
    if cs == [] then [] else Encode(cs[0]) + EncodeAll(cs[1..])
  }

  // ---------- every encoding is recognised ----------

  lemma StartsWith(b: seq<byte>, first: seq<byte>, rest: seq<byte>)
    requires b == first + rest
    ensures forall i :: 0 <= i < |first| ==> b[i] == first[i]
  {
  }

  lemma PrefixOfThree(c: Scalar, rest: seq<byte>)
    requires 0x800 <= c < 0x1_0000
    ensures Utf8Prefix(Encode(c) + rest) == 3
  {
    StartsWith(Encode(c) + rest, Encode(c), rest);
    var lead, second := c / 0x1000, c / 64 % 64;
    assert c / 64 == lead * 64 + second;
    assert lead == 0 ==> second >= 0x20;
    assert lead == 0xD ==> second < 0x20;
  }

  lemma PrefixOfFour(c: Scalar, rest: seq<byte>)
    requires 0x1_0000 <= c
    ensures Utf8Prefix(Encode(c) + rest) == 4
  {
    StartsWith(Encode(c) + rest, Encode(c), rest);
    var lead, second := c / 0x4_0000, c / 0x1000 % 64;
    assert c / 0x1000 == lead * 64 + second;
    assert lead == 0 ==> second >= 0x10;
    assert lead == 4 ==> second < 0x10;
  }

  lemma EncodedPrefix(c: Scalar, rest: seq<byte>)
    ensures Utf8Prefix(Encode(c) + rest) == |Encode(c)| > 0
  {
    if c >= 0x1_0000 {
      hide Utf8Prefix;
      PrefixOfFour(c, rest);
    } else if c >= 0x800 {
      hide Utf8Prefix;
      PrefixOfThree(c, rest);
    } else {
      StartsWith(Encode(c) + rest, Encode(c), rest);
    }
  }

  lemma {:induction false} EncodedIsUtf8(cs: seq<Scalar>)
    ensures IsUtf8(EncodeAll(cs))
  {
    hide Encode, Utf8Prefix;
    if cs != [] {
      var rest := EncodeAll(cs[1..]);
      EncodedIsUtf8(cs[1..]);
      EncodedPrefix(cs[0], rest);
      assert (Encode(cs[0]) + rest)[|Encode(cs[0])|..] == rest;
    }
  }

  // ---------- and nothing else is ----------

  function Six(b: byte): int {
    b as int - 0x80
  }

  /** The scalar value whose encoding stands at the front, by the length of that encoding. */
  lemma FirstOfTwo(b: seq<byte>) returns (c: Scalar)
    requires Utf8Prefix(b) == 2
    ensures Encode(c) == b[..2]
  {
    c := (b[0] as int - 0xC0) * 64 + Six(b[1]);
  }

  lemma FirstOfThree(b: seq<byte>) returns (c: Scalar)
    requires Utf8Prefix(b) == 3
    ensures Encode(c) == b[..3]
  {
    var high := (b[0] as int - 0xE0) * 64 + Six(b[1]);
    c := high * 64 + Six(b[2]);
    assert c / 64 == high && c / 0x1000 == b[0] as int - 0xE0;
  }

  lemma FirstOfFour(b: seq<byte>) returns (c: Scalar)
    requires Utf8Prefix(b) == 4
    ensures Encode(c) == b[..4]
  {
    var top := (b[0] as int - 0xF0) * 64 + Six(b[1]);
    var high := top * 64 + Six(b[2]);
    c := high * 64 + Six(b[3]);
    assert c / 64 == high && c / 0x1000 == top && c / 0x4_0000 == b[0] as int - 0xF0;
  }

  lemma FirstIsEncoded(b: seq<byte>) returns (c: Scalar)
    requires Utf8Prefix(b) > 0
    ensures Encode(c) == b[..Utf8Prefix(b)]
  {
    var n := Utf8Prefix(b);
    if n == 1 {
      c := b[0] as int;
    } else if n == 2 {
      c := FirstOfTwo(b);
    } else if n == 3 {
      c := FirstOfThree(b);
    } else {
      c := FirstOfFour(b);
    }
  }

  lemma {:induction false} Decoded(b: seq<byte>) returns (cs: seq<Scalar>)
    requires IsUtf8(b)
    ensures EncodeAll(cs) == b
    decreases |b|
  {
    hide Encode, Utf8Prefix;
    if b == [] {
      cs := [];
    } else {
      var c := FirstIsEncoded(b);
      var n := Utf8Prefix(b);
      var rest := Decoded(b[n..]);
      cs := [c] + rest;
      assert cs[1..] == rest && b[..n] + b[n..] == b;
    }
  }

  /** Bytes are accepted as text if and only if they encode some sequence of scalar values. */
  lemma Utf8Exactly(b: seq<byte>)
    ensures IsUtf8(b) <==> exists cs :: EncodeAll(cs) == b
  {
    hide EncodeAll, IsUtf8;
    if IsUtf8(b) {
      var cs := Decoded(b);
    }
    if cs :| EncodeAll(cs) == b {
      EncodedIsUtf8(cs);
    }
  }

  /** So received bytes read as plain text are that text exactly when they encode scalar values, and
      are refused otherwise. */
  lemma TextIsDecodedExactly(data: seq<byte>, width: u32, height: u32)
    ensures FromBytes(PlainText, data, width, height) ==
            if exists cs :: EncodeAll(cs) == data then Some(Text(data)) else None
  {
    hide EncodeAll, IsUtf8;
    Utf8Exactly(data);
  }

  /** Whatever text a peer sends, the receiver's decoding of the payload gives that text back. */
  lemma AnyTextArrives(cs: seq<Scalar>)
    ensures Text(EncodeAll(cs)).WellFormed()
    ensures Unwire(PlainText, Wire(Text(EncodeAll(cs)))) == Some(Text(EncodeAll(cs)))
  {
    hide EncodeAll, IsUtf8, Wire, Unwire;
    EncodedIsUtf8(cs);
    UnwireWire(PlainText, Text(EncodeAll(cs)));
  }
}
