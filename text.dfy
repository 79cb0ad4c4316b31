/** Character-level string operations that the dashboard borrows from
    JavaScript: `String(n)` for integers below 10^21 in magnitude, `toLowerCase`, `includes`, the
    regular-expression class `\s`, and `String.prototype.slice`. */
module Text {
  import opened Optional

  // ---------------------------------------------------------------------------
  // Decimal text of integers (`String(n)` for an integral number below 10^21)
  // ---------------------------------------------------------------------------

  predicate IsDigit(c: char) {
    '0' <= c <= '9'
  }

  predicate AllDigits(s: string) {
    forall i :: 0 <= i < |s| ==> IsDigit(s[i])
  }

  function DigitChar(d: nat): (c: char)
    requires d < 10
    ensures IsDigit(c) && DigitValue(c) == d
  {
    ('0' as int + d) as char
  }

  function DigitValue(c: char): (d: nat)
    requires IsDigit(c)
    ensures d < 10
  {
    c as int - '0' as int
  }

  /** Shortest decimal text of a natural number: digits only, no leading zero. */
  function NatToDecimal(n: nat): (s: string)
    ensures |s| > 0 && AllDigits(s)
    ensures |s| > 1 ==> s[0] != '0'
    ensures n < 10 <==> |s| == 1
  {
    if n < 10 then [DigitChar(n)] else NatToDecimal(n / 10) + [DigitChar(n % 10)]
  }

  /** `String(n)` for an integral JavaScript number whose magnitude is below
      10^21; from 10^21 on, JavaScript writes exponent form instead. */
  function DecimalString(n: int): (s: string)
    ensures |s| > 0
    ensures n >= 0 <==> IsDigit(s[0])
    ensures n < 0 <==> s[0] == '-'
  {
    if n < 0 then "-" + NatToDecimal(-n) else NatToDecimal(n)
  }

  /** Reads a non-empty run of digits, most significant first. */
  function DigitsValue(s: string): nat
    requires AllDigits(s)
  {
    if s == [] then 0 else DigitsValue(s[..|s| - 1]) * 10 + DigitValue(s[|s| - 1])
  }

  /** A reader for the text `DecimalString` writes: an optional `-`, then digits. */
  function ParseDecimal(s: string): Option<int> {
    if |s| > 1 && s[0] == '-' && AllDigits(s[1..]) then Some(-(DigitsValue(s[1..]) as int))
    else if |s| > 0 && AllDigits(s) then Some(DigitsValue(s))
    else None
  }

  lemma {:induction false} NatToDecimalValue(n: nat)
    ensures DigitsValue(NatToDecimal(n)) == n
  {
    var s := NatToDecimal(n);
    if n >= 10 {
      NatToDecimalValue(n / 10);
      assert s[..|s| - 1] == NatToDecimal(n / 10);
    }
  }

  /** Writing an integer and reading it back gives the same integer. */
  lemma DecimalRoundTrip(n: int)
    ensures ParseDecimal(DecimalString(n)) == Some(n)
  {
    if n < 0 {
      NegativeRoundTrip(-n);
    } else {
      var s := NatToDecimal(n);
      NatToDecimalValue(n);
      assert ParseDecimal(s) == Some(DigitsValue(s) as int) by {
        assert !(|s| > 1 && s[0] == '-');
      }
    }
  }

  lemma NegativeRoundTrip(m: nat)
    requires m > 0
    ensures ParseDecimal(DecimalString(-(m as int))) == Some(-(m as int))
  {
    var d := NatToDecimal(m);
    var s := DecimalString(-(m as int));
    assert s == "-" + d;
    DropHead("-", d);
    NatToDecimalValue(m);
  }

  /** Different integers have different decimal texts. */
  lemma DecimalStringInjective(m: int, n: int)
    requires DecimalString(m) == DecimalString(n)
    ensures m == n
  {
    DecimalRoundTrip(m);
    DecimalRoundTrip(n);
  }

  // ---------------------------------------------------------------------------
  // Case mapping, substring search
  // ---------------------------------------------------------------------------

  /** `toLowerCase` restricted to ASCII: only `A`..`Z` change. */
  function Lower(c: char): char {
    if 'A' <= c <= 'Z' then (c as int + 32) as char else c
  }

  function LowerStr(s: string): (r: string)
    ensures |r| == |s|
    ensures forall i :: 0 <= i < |s| ==> r[i] == Lower(s[i])
  {
    if s == [] then [] else [Lower(s[0])] + LowerStr(s[1..])
  }

  lemma LowerConcat(a: string, b: string)
    ensures LowerStr(a + b) == LowerStr(a) + LowerStr(b)
  {
  }

  /** Lower-casing a second time changes nothing. */
  lemma LowerStrIdempotent(s: string)
    ensures LowerStr(LowerStr(s)) == LowerStr(s)
  {
  }

  /** `needle` occurs in `hay` at position `i`. */
  predicate OccursAt(hay: string, needle: string, i: int) {
    0 <= i && i + |needle| <= |hay| && hay[i..i + |needle|] == needle
  }

  /** `hay.includes(needle)`. */
  predicate Includes(hay: string, needle: string) {
    exists i | 0 <= i <= |hay| :: OccursAt(hay, needle, i)
  }

  lemma IncludesEmpty(hay: string)
    ensures Includes(hay, "")
  {
    assert OccursAt(hay, "", 0);
  }

  /** An occurrence in `b` is an occurrence in `a + b + c`. */
  lemma IncludesInfix(a: string, b: string, c: string, needle: string)
    requires Includes(b, needle)
    ensures Includes(a + b + c, needle)
  {
    var i :| 0 <= i <= |b| && OccursAt(b, needle, i);
    var j := |a| + i;
    assert (a + b + c)[j..j + |needle|] == b[i..i + |needle|];
    assert OccursAt(a + b + c, needle, j);
  }

  // ---------------------------------------------------------------------------
  // Concatenation
  // ---------------------------------------------------------------------------

  lemma Regroup3(a: string, b: string, c: string)
    ensures a + b + c == a + (b + c)
  {
  }

  lemma Regroup(a: string, b: string, c: string, d: string)
    ensures a + b + c + d == a + (b + (c + d))
  {
  }

  lemma DropHead(a: string, x: string)
    requires |a| == 1
    ensures (a + x)[1..] == x
  {
  }

  // ---------------------------------------------------------------------------
  // Array.prototype.join
  // ---------------------------------------------------------------------------

  /** `parts.join(sep)`: the parts with `sep` between neighbours. */
  function Join(sep: string, parts: seq<string>): string {
    if parts == [] then "" else if |parts| == 1 then parts[0] else parts[0] + sep + Join(sep, parts[1..])
  }

  /** A join of two or more parts, first part split off. */
  lemma JoinUncons(sep: string, parts: seq<string>)
    requires |parts| >= 2
    ensures Join(sep, parts) == parts[0] + (sep + Join(sep, parts[1..]))
  {
    Regroup3(parts[0], sep, Join(sep, parts[1..]));
  }

  /** A join with a part put in front. */
  lemma JoinCons(sep: string, x: string, parts: seq<string>)
    requires |parts| >= 1
    ensures Join(sep, [x] + parts) == x + sep + Join(sep, parts)
  {
    assert ([x] + parts)[1..] == parts;
  }

  /** With two or more parts the separators alone make the text non-empty. */
  lemma {:induction false} JoinNonEmpty(sep: string, parts: seq<string>)
    requires |parts| >= 2 && |sep| > 0
    ensures |Join(sep, parts)| >= (|parts| - 1) * |sep|
  {
    if |parts| > 2 {
      JoinNonEmpty(sep, parts[1..]);
    }
  }

  // ---------------------------------------------------------------------------
  // The regular-expression class `\s`
  // ---------------------------------------------------------------------------

  /** ECMAScript WhiteSpace and LineTerminator code points: what `\s` matches. */
  predicate IsJsWhitespace(c: char) {
    || c == '\t' || c == '\n' || c == '\U{B}' || c == '\U{C}' || c == '\r'
    || c == ' ' || c == '\U{A0}' || c == '\U{1680}'
    || ('\U{2000}' <= c <= '\U{200A}')
    || c == '\U{2028}' || c == '\U{2029}' || c == '\U{202F}' || c == '\U{205F}'
    || c == '\U{3000}' || c == '\U{FEFF}'
  }

  // ---------------------------------------------------------------------------
  // String.prototype.slice
  // ---------------------------------------------------------------------------

  /** How `slice` resolves an integral argument against the length:
      negative counts from the end, and both ends are clamped to [0, len]. */
  function RelativeIndex(k: int, len: nat): (r: nat)
    ensures r <= len
    ensures 0 <= k <= len ==> r == k
    ensures k > len ==> r == len
    ensures -(len as int) <= k < 0 ==> r == len + k
    ensures k < -(len as int) ==> r == 0
  {
    if k < 0 then (if len + k < 0 then 0 else len + k) else (if k < len then k else len)
  }

  /** `s.slice(start, end)` for integral arguments. */
  function Slice(s: string, start: int, end: int): (r: string)
    ensures |r| <= |s|
  {
    var from, to := RelativeIndex(start, |s|), RelativeIndex(end, |s|);
    if from < to then s[from..to] else ""
  }

  /** `s.slice(start)`: the end defaults to the length. */
  function SliceFrom(s: string, start: int): (r: string)
    ensures |r| <= |s|
  {
    Slice(s, start, |s|)
  }

  /** `s.slice(0, n)` keeps the first `n` characters, or all of them. */
  lemma SlicePrefix(s: string, n: nat)
    ensures Slice(s, 0, n) == s[..if n < |s| then n else |s|]
  {
  }

  /** `s.slice(-k)` for positive `k` keeps the last `k` characters, or all. */
  lemma SliceSuffix(s: string, k: int)
    requires k > 0
    ensures SliceFrom(s, -k) == s[(if k < |s| then |s| - k else 0)..]
  {
  }

  /** `s.slice(-0)` is `s.slice(0)`: the whole string. */
  lemma SliceFromZero(s: string)
    ensures SliceFrom(s, -0) == s
  {
  }
}
