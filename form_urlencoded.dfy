/** The application/x-www-form-urlencoded serialiser behind
    `URLSearchParams.prototype.toString`, and the matching parser. Names and
    values are UTF-8 encoded; the bytes `*-._`, digits and ASCII letters are
    written as they are, a space becomes `+`, and every other byte becomes `%`
    and two upper-case hex digits. Pairs are written `name=value` and joined
    with `&`. */
module FormUrlencoded {
  import opened Optional
  import opened Text
  import Utf8

  /** Bytes written as themselves. */
  predicate IsUnreserved(b: int) {
    b == 0x2A || b == 0x2D || b == 0x2E || 0x30 <= b <= 0x39 || 0x41 <= b <= 0x5A
    || b == 0x5F || 0x61 <= b <= 0x7A
  }

  function HexDigit(d: nat): (c: char)
    requires d < 16
    ensures IsHexDigit(c) && HexValue(c) == d
  {
    if d < 10 then ('0' as int + d) as char else ('A' as int + d - 10) as char
  }

  predicate IsHexDigit(c: char) {
    '0' <= c <= '9' || 'A' <= c <= 'F' || 'a' <= c <= 'f'
  }

  function HexValue(c: char): (d: nat)
    requires IsHexDigit(c)
    ensures d < 16
  {
    if c <= '9' then c as int - '0' as int
    else if c <= 'F' then c as int - 'A' as int + 10
    else c as int - 'a' as int + 10
  }

  /** How one byte of a name or value is written. */
  function EncodeByte(b: Utf8.byte): (t: string)
    ensures |t| > 0
  {
    if IsUnreserved(b) then [b as char]
    else if b == 0x20 then "+"
    else ['%', HexDigit(b / 16), HexDigit(b % 16)]
  }

  function SerializeBytes(bs: seq<Utf8.byte>): string {
    if bs == [] then "" else EncodeByte(bs[0]) + SerializeBytes(bs[1..])
  }

  /** One name or value, serialised. */
  function Serialize(s: string): string {
    SerializeBytes(Utf8.Encode(s))
  }

  /** The parser's byte-level step: `+` is a space, `%` and two hex digits are
      that byte, anything else (a `%` without two hex digits included) is its
      own UTF-8 encoding. */
  function PercentDecode(t: string): seq<Utf8.byte> {
    if t == [] then []
    else if t[0] == '+' then [0x20] + PercentDecode(t[1..])
    else if t[0] == '%' && |t| >= 3 && IsHexDigit(t[1]) && IsHexDigit(t[2]) then
      [HexValue(t[1]) * 16 + HexValue(t[2])] + PercentDecode(t[3..])
    else Utf8.EncodeChar(t[0]) + PercentDecode(t[1..])
  }

  /** One name or value, parsed; `None` for bytes that are not UTF-8. */
  function Deserialize(t: string): Option<string> {
    Utf8.Decode(PercentDecode(t))
  }

  lemma PercentDecodeEncodeByte(b: Utf8.byte, rest: string)
    ensures PercentDecode(EncodeByte(b) + rest) == [b] + PercentDecode(rest)
  {
    var t := EncodeByte(b) + rest;
    if IsUnreserved(b) {
      assert t[1..] == rest;
    } else if b == 0x20 {
      assert t[1..] == rest;
    } else {
      assert t[3..] == rest;
      assert b / 16 * 16 + b % 16 == b;
    }
  }

  lemma {:induction false} PercentDecodeSerializeBytes(bs: seq<Utf8.byte>)
    ensures PercentDecode(SerializeBytes(bs)) == bs
  {
    if bs != [] {
      PercentDecodeEncodeByte(bs[0], SerializeBytes(bs[1..]));
      PercentDecodeSerializeBytes(bs[1..]);
    }
  }

  /** Parsing a serialised name or value gives it back. */
  lemma SerializeRoundTrip(s: string)
    ensures Deserialize(Serialize(s)) == Some(s)
  {
    PercentDecodeSerializeBytes(Utf8.Encode(s));
    Utf8.DecodeEncode(s);
  }

  /** Characters the serialiser writes: never `&` or `=`. */
  predicate IsFormChar(c: char) {
    IsUnreserved(c as int) || c == '+' || c == '%'
  }

  predicate AllFormChars(t: string) {
    forall i :: 0 <= i < |t| ==> IsFormChar(t[i])
  }

  lemma {:induction false} SerializeBytesFormChars(bs: seq<Utf8.byte>)
    ensures AllFormChars(SerializeBytes(bs))
  {
    if bs != [] {
      SerializeBytesFormChars(bs[1..]);
      var t := SerializeBytes(bs);
      var head := EncodeByte(bs[0]);
      assert t == head + SerializeBytes(bs[1..]);
      forall i | 0 <= i < |t|
        ensures IsFormChar(t[i])
      {
        if i >= |head| {
          assert t[i] == SerializeBytes(bs[1..])[i - |head|];
        }
      }
    }
  }

  // ---------------------------------------------------------------------------
  // Pairs
  // ---------------------------------------------------------------------------

  function PairText(pair: (string, string)): string {
    Serialize(pair.0) + "=" + Serialize(pair.1)
  }

  function PairTexts(pairs: seq<(string, string)>): (texts: seq<string>)
    ensures |texts| == |pairs|
    ensures forall i :: 0 <= i < |pairs| ==> texts[i] == PairText(pairs[i])
  {
    if pairs == [] then [] else [PairText(pairs[0])] + PairTexts(pairs[1..])
  }

  /** `new URLSearchParams(pairs).toString()`. */
  function Query(pairs: seq<(string, string)>): string {
    Join("&", PairTexts(pairs))
  }

  /** Splits at every occurrence of `c`; always at least one piece. */
  function Split(t: string, c: char): (pieces: seq<string>)
    ensures |pieces| >= 1
  {
    if t == [] then [""]
    else
      var r := Split(t[1..], c);
      if t[0] == c then [""] + r else [[t[0]] + r[0]] + r[1..]
  }

  /** Splits at the first `c`: the text before it and, when there is one,
      the text after it. */
  function BreakAt(t: string, c: char): (string, Option<string>) {
    if t == [] then ("", None)
    else if t[0] == c then ("", Some(t[1..]))
    else
      var r := BreakAt(t[1..], c);
      ([t[0]] + r.0, r.1)
  }

  /** Parses the pieces between `&`s: an empty piece is skipped, the rest is
      split at its first `=` (a piece without one has the empty value). */
  function ParsePieces(pieces: seq<string>): Option<seq<(string, string)>> {
    if pieces == [] then Some([])
    else if pieces[0] == "" then ParsePieces(pieces[1..])
    else
      var (rawName, rawValue) := BreakAt(pieces[0], '=');
      match (Deserialize(rawName), Deserialize(rawValue.GetOr("")), ParsePieces(pieces[1..]))
      case (Some(name), Some(value), Some(rest)) => Some([(name, value)] + rest)
      case _ => None
  }

  /** `new URLSearchParams(t)`, as a list of pairs. */
  function ParseQuery(t: string): Option<seq<(string, string)>> {
    ParsePieces(Split(t, '&'))
  }

  lemma {:induction false} SplitFree(p: string, c: char)
    requires forall i :: 0 <= i < |p| ==> p[i] != c
    ensures Split(p, c) == [p]
  {
    if p != [] {
      SplitFree(p[1..], c);
      assert [p[0]] + p[1..] == p;
    }
  }

  lemma {:induction false} SplitFirst(p: string, c: char, rest: string)
    requires forall i :: 0 <= i < |p| ==> p[i] != c
    ensures Split(p + [c] + rest, c) == [p] + Split(rest, c)
  {
    if p == [] {
      assert (p + [c] + rest)[1..] == rest;
    } else {
      assert (p + [c] + rest)[1..] == p[1..] + [c] + rest;
      SplitFirst(p[1..], c, rest);
      assert [p[0]] + p[1..] == p;
    }
  }

  /** Splitting text joined with `c` gives back the parts, when none holds `c`. */
  lemma {:induction false} SplitJoin(parts: seq<string>, c: char)
    requires |parts| >= 1
    requires forall k, i :: 0 <= k < |parts| && 0 <= i < |parts[k]| ==> parts[k][i] != c
    ensures Split(Join([c], parts), c) == parts
  {
    if |parts| == 1 {
      SplitFree(parts[0], c);
    } else {
      SplitJoin(parts[1..], c);
      SplitFirst(parts[0], c, Join([c], parts[1..]));
      assert [parts[0]] + parts[1..] == parts;
    }
  }

  lemma {:induction false} BreakAtFirst(p: string, c: char, q: string)
    requires forall i :: 0 <= i < |p| ==> p[i] != c
    ensures BreakAt(p + [c] + q, c) == (p, Some(q))
  {
    if p == [] {
      assert (p + [c] + q)[1..] == q;
    } else {
      assert (p + [c] + q)[1..] == p[1..] + [c] + q;
      BreakAtFirst(p[1..], c, q);
      assert [p[0]] + p[1..] == p;
    }
  }

  lemma PairTextParses(pair: (string, string))
    ensures PairText(pair) != ""
    ensures BreakAt(PairText(pair), '=') == (Serialize(pair.0), Some(Serialize(pair.1)))
  {
    SerializeBytesFormChars(Utf8.Encode(pair.0));
    BreakAtFirst(Serialize(pair.0), '=', Serialize(pair.1));
  }

  lemma PairTextHasNoAmpersand(pair: (string, string))
    ensures forall i :: 0 <= i < |PairText(pair)| ==> PairText(pair)[i] != '&'
  {
    var t := PairText(pair);
    SerializeBytesFormChars(Utf8.Encode(pair.0));
    SerializeBytesFormChars(Utf8.Encode(pair.1));
    forall i | 0 <= i < |t|
      ensures t[i] != '&'
    {
      var n := |Serialize(pair.0)|;
      if i > n {
        assert t[i] == Serialize(pair.1)[i - n - 1];
      }
    }
  }

  lemma {:induction false} ParsePairTexts(pairs: seq<(string, string)>)
    ensures ParsePieces(PairTexts(pairs)) == Some(pairs)
  {
    if pairs != [] {
      PairTextParses(pairs[0]);
      SerializeRoundTrip(pairs[0].0);
      SerializeRoundTrip(pairs[0].1);
      ParsePairTexts(pairs[1..]);
      assert PairTexts(pairs)[1..] == PairTexts(pairs[1..]);
      assert [pairs[0]] + pairs[1..] == pairs;
    }
  }

  /** Parsing a serialised query gives back its pairs, in order. */
  lemma QueryRoundTrip(pairs: seq<(string, string)>)
    ensures ParseQuery(Query(pairs)) == Some(pairs)
  {
    var texts := PairTexts(pairs);
    if pairs == [] {
      assert Split("", '&') == [""];
    } else {
      forall k | 0 <= k < |texts|
        ensures forall i :: 0 <= i < |texts[k]| ==> texts[k][i] != '&'
      {
        PairTextHasNoAmpersand(pairs[k]);
      }
      SplitJoin(texts, '&');
      assert Join("&", texts) == Join(['&'], texts);
    }
    ParsePairTexts(pairs);
  }
}
