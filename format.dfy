/** The display formatters: `formatAddress` (shared in lib/utils.ts and
    repeated in the home page and the recent-liquidations panel) and
    `formatToken`. Both cut a string with `String.prototype.slice`. */
module Format {
  import opened Optional
  import opened Text
  import Utf8

  function Min(a: int, b: int): int {
    if a < b then a else b
  }

  // ---------------------------------------------------------------------------
  // formatAddress
  // ---------------------------------------------------------------------------

  /** The separator the home page and the recent-liquidations panel use:
      U+2026 HORIZONTAL ELLIPSIS. */
  const Ellipsis: string := "\U{2026}"

  /** The separator lib/utils.ts writes: three characters, `â`, `€`, `¦`. */
  const MisencodedEllipsis: string := "\U{E2}\U{20AC}\U{A6}"

  /** `formatAddress(addr, size)` with the separator as a parameter: `-` for
      a missing or empty address, otherwise `addr.slice(0, 2 + size)`, the
      separator and `addr.slice(-size)`. */
  function ShortenAddress(sep: string, addr: Option<string>, size: int): (r: string)
    ensures addr.None? || addr == Some("") ==> r == "-"
    ensures addr.Some? && addr.value != "" ==> |r| >= |sep|
  {
    if addr.None? || addr.value == "" then "-"
    else Slice(addr.value, 0, 2 + size) + sep + SliceFrom(addr.value, -size)
  }

  /** For a non-negative size the result is the first `2 + size` characters
      (or all), the separator, and the last `size` characters (or all);
      a size of 0 keeps the whole address after the separator, since
      `slice(-0)` is `slice(0)`. */
  lemma ShortenAddressShape(sep: string, addr: string, size: nat)
    requires addr != ""
    ensures size > 0 ==> ShortenAddress(sep, Some(addr), size)
                         == addr[..Min(2 + size, |addr|)] + sep + addr[(if size < |addr| then |addr| - size else 0)..]
    ensures size == 0 ==> ShortenAddress(sep, Some(addr), size) == addr[..Min(2, |addr|)] + sep + addr
  {
    SlicePrefix(addr, 2 + size);
    if size > 0 {
      SliceSuffix(addr, size);
    } else {
      SliceFromZero(addr);
    }
  }

  /** An address long enough to be cut shows `2 + size` leading and `size`
      trailing characters around the separator. */
  lemma ShortenAddressKeepsEnds(sep: string, addr: string, size: nat)
    requires size > 0 && |addr| >= 2 + 2 * size
    ensures var r := ShortenAddress(sep, Some(addr), size);
            |r| == 2 + 2 * size + |sep|
            && r[..2 + size] == addr[..2 + size]
            && r[2 + size..2 + size + |sep|] == sep
            && r[|r| - size..] == addr[|addr| - size..]
  {
    ShortenAddressShape(sep, addr, size);
  }

  /** `formatAddress` of lib/utils.ts as written, with the misencoded
      separator. */
  function FormatAddressAsWritten(addr: Option<string>, size: int): string {
    ShortenAddress(MisencodedEllipsis, addr, size)
  }

  /** `formatAddress` with the ellipsis, as app/page.tsx and
      app/components/RecentLiquidations.tsx write it and as lib/utils.ts
      means it. */
  function FormatAddress(addr: Option<string>, size: int): string {
    ShortenAddress(Ellipsis, addr, size)
  }

  /** A cut address from lib/utils.ts as written is five characters longer
      than the characters it keeps. */
  lemma FormatAddressAsWrittenLength(addr: string, size: nat)
    requires size > 0 && |addr| >= 2 + 2 * size
    ensures |FormatAddressAsWritten(Some(addr), size)| == 2 * size + 5
  {
    ShortenAddressKeepsEnds(MisencodedEllipsis, addr, size);
  }

  /** A cut address is one character longer than the characters it keeps,
      and that character is the ellipsis. */
  lemma FormatAddressLength(addr: string, size: nat)
    requires size > 0 && |addr| >= 2 + 2 * size
    ensures |FormatAddress(Some(addr), size)| == 2 * size + 3
    ensures FormatAddress(Some(addr), size)[2 + size] == '\U{2026}'
  {
    ShortenAddressKeepsEnds(Ellipsis, addr, size);
    assert FormatAddress(Some(addr), size)[2 + size..3 + size] == Ellipsis;
  }

  /** Windows-1252: the code point each byte stands for. The five bytes the
      code page leaves unassigned stand for the C1 control of the same value. */
  function Windows1252(b: Utf8.byte): char {
    if 0x80 <= b < 0xA0 then
      [ '\U{20AC}', '\U{81}', '\U{201A}', '\U{192}', '\U{201E}', '\U{2026}', '\U{2020}', '\U{2021}',
        '\U{2C6}', '\U{2030}', '\U{160}', '\U{2039}', '\U{152}', '\U{8D}', '\U{17D}', '\U{8F}',
        '\U{90}', '\U{2018}', '\U{2019}', '\U{201C}', '\U{201D}', '\U{2022}', '\U{2013}', '\U{2014}',
        '\U{2DC}', '\U{2122}', '\U{161}', '\U{203A}', '\U{153}', '\U{9D}', '\U{17E}', '\U{178}' ][b - 0x80]
    else b as char
  }

  /** The lib/utils.ts separator is the UTF-8 encoding of the ellipsis read
      back as Windows-1252 text. */
  lemma SeparatorIsMisreadEllipsis()
    ensures var bytes := Utf8.Encode(Ellipsis);
            |bytes| == 3
            && MisencodedEllipsis == [Windows1252(bytes[0]), Windows1252(bytes[1]), Windows1252(bytes[2])]
  {
    assert Utf8.Encode(Ellipsis) == [0xE2, 0x80, 0xA6];
  }

  /** So the shared formatter as written and the pages' own copies render
      the same address differently. */
  lemma AsWrittenSeparatorDiffers()
    ensures FormatAddressAsWritten(Some("0x12345678"), 2) == "0x12" + MisencodedEllipsis + "78"
    ensures FormatAddress(Some("0x12345678"), 2) == "0x12\U{2026}78"
  {
    ShortenAddressShape(MisencodedEllipsis, "0x12345678", 2);
    ShortenAddressShape(Ellipsis, "0x12345678", 2);
  }

  // ---------------------------------------------------------------------------
  // formatToken
  // ---------------------------------------------------------------------------

  /** `formatToken(token, maxLength)`: `-` for a missing or empty token, the
      token itself when it fits, otherwise `token.slice(0, maxLength)` and
      three dots. */
  function FormatToken(token: Option<string>, maxLength: int): (r: string)
    ensures token.None? || token == Some("") ==> r == "-"
    ensures token.Some? && token.value != "" && |token.value| <= maxLength ==> r == token.value
    ensures token.Some? && token.value != "" && 0 <= maxLength < |token.value| ==>
              r == token.value[..maxLength] + "..." && |r| == maxLength + 3
  {
    if token.None? || token.value == "" then "-"
    else if |token.value| > maxLength then Slice(token.value, 0, maxLength) + "..."
    else token.value
  }

  /** Formatting a formatted token again changes nothing, for any positive
      width: a cut token is `maxLength + 3` long and cuts to itself. */
  lemma FormatTokenIdempotent(token: Option<string>, maxLength: int)
    requires maxLength >= 1
    ensures FormatToken(Some(FormatToken(token, maxLength)), maxLength) == FormatToken(token, maxLength)
  {
    var r := FormatToken(token, maxLength);
    if token.Some? && token.value != "" && |token.value| > maxLength {
      assert r[..maxLength] == token.value[..maxLength];
    }
  }

  /** A negative width counts from the end, as `slice` does: the last
      `-maxLength` characters are dropped before the dots. */
  lemma FormatTokenNegativeWidth(token: string, k: nat)
    requires 0 < k <= |token|
    ensures FormatToken(Some(token), -(k as int)) == token[..|token| - k] + "..."
  {
  }
}
