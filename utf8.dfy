/** UTF-8, the byte encoding that URL query serialisation works on, with a
    decoder that reads back exactly the well-formed encodings. */
module Utf8 {
  import opened Optional

  type byte = b: int | 0 <= b < 256

  predicate IsContinuation(b: byte) {
    0x80 <= b < 0xC0
  }

  /** The six payload bits of a continuation byte. */
  function Payload(b: byte): int {
    b as int - 0x80
  }

  /** The UTF-8 bytes of one code point: one to four bytes, the lead byte
      carrying the length and every later byte six payload bits. */
  function EncodeChar(c: char): (bs: seq<byte>)
    ensures 1 <= |bs| <= 4
    ensures |bs| == 1 <==> (c as int) < 0x80
    ensures |bs| == 1 ==> bs[0] == c as int
  {
    var cp := c as int;
    var h1 := cp / 64;
    var h2 := h1 / 64;
    var h3 := h2 / 64;
    if cp < 0x80 then [cp]
    else if cp < 0x800 then [0xC0 + h1, 0x80 + cp % 64]
    else if cp < 0x10000 then [0xE0 + h2, 0x80 + h1 % 64, 0x80 + cp % 64]
    else [0xF0 + h3, 0x80 + h2 % 64, 0x80 + h1 % 64, 0x80 + cp % 64]
  }

  /** The UTF-8 bytes of a string. */
  function Encode(s: string): seq<byte> {
    if s == [] then [] else EncodeChar(s[0]) + Encode(s[1..])
  }

  /** Reads the code point at the start of `bs` and how many bytes it took;
      `None` for a byte sequence that is not well-formed UTF-8 there
      (a stray continuation byte, a truncated sequence, an overlong form,
      a surrogate or a value above U+10FFFF). */
  function DecodeFirst(bs: seq<byte>): (r: Option<(char, nat)>)
    requires |bs| > 0
    ensures r.Some? ==> 1 <= r.value.1 <= |bs| && r.value.1 <= 4
  {
    var b0 := bs[0] as int;
    if b0 < 0x80 then Some((b0 as char, 1))
    else if 0xC2 <= b0 < 0xE0 && |bs| >= 2 && IsContinuation(bs[1]) then
      Some((((b0 - 0xC0) * 64 + Payload(bs[1])) as char, 2))
    else if 0xE0 <= b0 < 0xF0 && |bs| >= 3 && IsContinuation(bs[1]) && IsContinuation(bs[2]) then
      var cp := ((b0 - 0xE0) * 64 + Payload(bs[1])) * 64 + Payload(bs[2]);
      if 0x800 <= cp && !(0xD800 <= cp < 0xE000) then Some((cp as char, 3)) else None
    else if 0xF0 <= b0 < 0xF5 && |bs| >= 4 && IsContinuation(bs[1]) && IsContinuation(bs[2]) && IsContinuation(bs[3]) then
      var cp := (((b0 - 0xF0) * 64 + Payload(bs[1])) * 64 + Payload(bs[2])) * 64 + Payload(bs[3]);
      if 0x10000 <= cp < 0x110000 then Some((cp as char, 4)) else None
    else None
  }

  /** Decodes a whole byte sequence; `None` when any part is malformed. */
  function Decode(bs: seq<byte>): Option<string>
    decreases |bs|
  {
    if bs == [] then Some("")
    else match DecodeFirst(bs)
      case None => None
      case Some((c, n)) =>
        match Decode(bs[n..])
        case None => None
        case Some(s) => Some([c] + s)
  }

  /** The decoder reads one encoded code point back, whatever follows it. */
  lemma DecodeFirstEncodeChar(c: char, rest: seq<byte>)
    ensures DecodeFirst(EncodeChar(c) + rest) == Some((c, |EncodeChar(c)|))
  {
    var cp := c as int;
    var h1 := cp / 64;
    var h2 := h1 / 64;
    var h3 := h2 / 64;
    var bs := EncodeChar(c) + rest;
    if cp < 0x80 {
    } else if cp < 0x800 {
      assert (bs[0] as int - 0xC0) * 64 + Payload(bs[1]) == h1 * 64 + cp % 64 == cp;
    } else if cp < 0x10000 {
      assert ((bs[0] as int - 0xE0) * 64 + Payload(bs[1])) * 64 + Payload(bs[2])
          == (h2 * 64 + h1 % 64) * 64 + cp % 64 == h1 * 64 + cp % 64 == cp;
    } else {
      assert (((bs[0] as int - 0xF0) * 64 + Payload(bs[1])) * 64 + Payload(bs[2])) * 64 + Payload(bs[3])
          == ((h3 * 64 + h2 % 64) * 64 + h1 % 64) * 64 + cp % 64
          == (h2 * 64 + h1 % 64) * 64 + cp % 64
          == h1 * 64 + cp % 64 == cp;
    }
  }

  /** Decoding the encoding of a string gives the string back. */
  lemma {:induction false} DecodeEncode(s: string)
    ensures Decode(Encode(s)) == Some(s)
  {
    if s != [] {
      var head := EncodeChar(s[0]);
      DecodeFirstEncodeChar(s[0], Encode(s[1..]));
      assert (head + Encode(s[1..]))[|head|..] == Encode(s[1..]);
      DecodeEncode(s[1..]);
      assert [s[0]] + s[1..] == s;
    }
  }
}
