/**
 Clipboard contents and their wire form: four big-endian bytes of width, four of
 height, then the content's own bytes. Text is kept as the UTF-8 bytes a Rust
 String holds.
 */
module Clipboard {
  import opened Wrappers

  newtype byte = x: int | 0 <= x < 0x100
  type u32 = x: int | 0 <= x < 0x1_0000_0000
  type u64 = x: int | 0 <= x < 0x1_0000_0000_0000_0000

  predicate Between(b: seq<byte>, i: nat, low: byte, high: byte) {
    i < |b| && low <= b[i] <= high
  }

  /** Length of the well-formed UTF-8 sequence at the front of b, or 0 if there is none
      (Unicode Standard, Table 3-7). */
  function Utf8Prefix(b: seq<byte>): (n: nat)
    ensures n <= |b|
  {
    if Between(b, 0, 0x00, 0x7F) then 1
    else if Between(b, 0, 0xC2, 0xDF) then (if Between(b, 1, 0x80, 0xBF) then 2 else 0)
    else if Between(b, 0, 0xE0, 0xEF) then
      var low := if b[0] == 0xE0 then 0xA0 else 0x80;
      var high := if b[0] == 0xED then 0x9F else 0xBF;
      if Between(b, 1, low, high) && Between(b, 2, 0x80, 0xBF) then 3 else 0
    else if Between(b, 0, 0xF0, 0xF4) then
      var low := if b[0] == 0xF0 then 0x90 else 0x80;
      var high := if b[0] == 0xF4 then 0x8F else 0xBF;
      if Between(b, 1, low, high) && Between(b, 2, 0x80, 0xBF) && Between(b, 3, 0x80, 0xBF) then 4 else 0
    else 0
  }

  predicate IsUtf8(b: seq<byte>)
    decreases |b|
  {
    b == [] || (Utf8Prefix(b) > 0 && IsUtf8(b[Utf8Prefix(b)..]))
  }

  datatype ContentType = PlainText | ImagePng

  datatype Content = Text(utf8: seq<byte>) | Image(data: seq<byte>, width: u32, height: u32) {

    /** What every Rust String guarantees. */
    predicate WellFormed() {
      Text? ==> IsUtf8(utf8)
    }

    function Type(): ContentType {
      if Text? then PlainText else ImagePng
    }

    function Bytes(): seq<byte> {
      if Text? then utf8 else data
    }

    function Size(): nat {
      |Bytes()|
    }

    /** The content hash: only the bytes count, neither the type nor an image's dimensions. */
    function Hash(h: HashFn): u64 {
      h(Bytes())
    }
  }

  /** xxHash64 with seed 0 is a parameter; properties that need more than a function say so. */
  type HashFn = seq<byte> -> u64

  function BigEndian(n: u32): (b: seq<byte>)
    ensures |b| == 4
  {
    [(n / 0x100_0000) as byte, (n / 0x1_0000 % 0x100) as byte, (n / 0x100 % 0x100) as byte, (n % 0x100) as byte]
  }

  function FromBigEndian(b: seq<byte>): u32
    requires |b| == 4
  {
    (b[0] as int) * 0x100_0000 + (b[1] as int) * 0x1_0000 + (b[2] as int) * 0x100 + (b[3] as int)
  }

  function FromBytes(t: ContentType, data: seq<byte>, width: u32, height: u32): Option<Content> {
    match t
    case PlainText => if IsUtf8(data) then Some(Text(data)) else None
    case ImagePng => Some(Image(data, width, height))
  }

  /** The payload of a ClipboardData frame. */
  function Wire(c: Content): (payload: seq<byte>)
    ensures |payload| == 8 + c.Size()
  {
    var width := if c.Image? then c.width else 0;
    var height := if c.Image? then c.height else 0;
    BigEndian(width) + BigEndian(height) + c.Bytes()
  }

  /** What a receiver that was told to expect type t makes of a ClipboardData payload. */
  function Unwire(t: ContentType, payload: seq<byte>): Option<Content> {
    if |payload| < 8 then None
    else FromBytes(t, payload[8..], FromBigEndian(payload[..4]), FromBigEndian(payload[4..8]))
  }

  lemma BigEndianRoundTrip(n: u32)
    ensures FromBigEndian(BigEndian(n)) == n
  {
    assert n / 0x100 == n / 0x1_0000 * 0x100 + n / 0x100 % 0x100;
    assert n / 0x1_0000 == n / 0x100_0000 * 0x100 + n / 0x1_0000 % 0x100;
  }

  lemma WireParts(c: Content)
    ensures Wire(c)[8..] == c.Bytes()
    ensures c.Image? ==> FromBigEndian(Wire(c)[..4]) == c.width && FromBigEndian(Wire(c)[4..8]) == c.height
    ensures c.Text? ==> FromBigEndian(Wire(c)[..4]) == 0 && FromBigEndian(Wire(c)[4..8]) == 0
  {
    var width: u32 := if c.Image? then c.width else 0;
    var height: u32 := if c.Image? then c.height else 0;
    assert Wire(c)[..4] == BigEndian(width);
    assert Wire(c)[4..8] == BigEndian(height);
    BigEndianRoundTrip(width);
    BigEndianRoundTrip(height);
  }

  /** Decoding with the content's own type gives the content back. With the other type it never
      does: an image read as text is its bytes if they happen to be UTF-8 and nothing otherwise,
      and text read as an image is a 0x0 image. Either way the bytes, hence size and hash, stay. */
  lemma UnwireWire(t: ContentType, c: Content)
    ensures c.WellFormed() ==> (Unwire(t, Wire(c)) == Some(c) <==> t == c.Type())
    ensures Unwire(t, Wire(c)).None? <==> t.PlainText? && !IsUtf8(c.Bytes())
    ensures Unwire(t, Wire(c)).Some? ==>
              && Unwire(t, Wire(c)).value.WellFormed()
              && Unwire(t, Wire(c)).value.Type() == t
              && Unwire(t, Wire(c)).value.Bytes() == c.Bytes()
  {
    WireParts(c);
  }

  /** The number four bytes stand for, the first one weighing most. */
  lemma MostSignificantFirst(n: u32)
    ensures var b := BigEndian(n);
            b[0] as int * 16_777_216 + b[1] as int * 65_536 + b[2] as int * 256 + b[3] as int == n
  {
    BigEndianRoundTrip(n);
  }

  /** The payload, byte by byte: an image's width, then its height, then its data; for text eight zeros
      and the text. */
  lemma PayloadLayout(data: seq<byte>, width: u32, height: u32)
    ensures var p := Wire(Image(data, width, height));
            && |p| == 8 + |data| && p[8..] == data
            && p[0] as int * 16_777_216 + p[1] as int * 65_536 + p[2] as int * 256 + p[3] as int == width
            && p[4] as int * 16_777_216 + p[5] as int * 65_536 + p[6] as int * 256 + p[7] as int == height
    ensures Wire(Text(data)) == [0, 0, 0, 0, 0, 0, 0, 0] + data
  {
    MostSignificantFirst(width);
    MostSignificantFirst(height);
  }

  /** Type, size and hash of a content: an image's dimensions count for none of them. */
  lemma Measures(h: HashFn, data: seq<byte>, width: u32, height: u32)
    ensures var t, m := Text(data), Image(data, width, height);
            && t.Type() == PlainText && m.Type() == ImagePng
            && t.Size() == m.Size() == |data|
            && t.Hash(h) == m.Hash(h) == h(data)
  {
  }
}
