/** The CSV export endpoint (`GET /api/export`): the email gate, the limit
    clamp, the CSV serialiser and the order in which the handler decides.
    The upstream request is not made here: its outcome is an input. */
module ExportRoute {
  import opened Optional
  import opened Text
  import opened Records

  // ---------------------------------------------------------------------------
  // Email validation
  // ---------------------------------------------------------------------------

  /** A character of the class `[^\s@]`. */
  predicate IsAddressChar(c: char) {
    !IsJsWhitespace(c) && c != '@'
  }

  /** `[^\s@]+` matches all of `s`. */
  predicate IsAddressRun(s: string) {
    |s| > 0 && forall i :: 0 <= i < |s| ==> IsAddressChar(s[i])
  }

  /** The split that `^[^\s@]+@[^\s@]+\.[^\s@]+$` asks for: a run, `@` at
      `at`, a run, `.` at `dot`, a run. */
  predicate IsEmailSplit(s: string, at: int, dot: int) {
    && 0 <= at < dot < |s|
    && IsAddressRun(s[..at])
    && s[at] == '@'
    && IsAddressRun(s[at + 1..dot])
    && s[dot] == '.'
    && IsAddressRun(s[dot + 1..])
  }

  /** The regular expression test: some split of the whole string matches. */
  predicate EmailPattern(s: string) {
    exists at, dot | 0 <= at < dot < |s| :: IsEmailSplit(s, at, dot)
  }

  /** `s[at]` is an `@` and no other character of `s` is. */
  predicate IsSoleAt(s: string, at: int) {
    0 <= at < |s| && s[at] == '@' && forall j | 0 <= j < |s| && j != at :: s[j] != '@'
  }

  /** The features an accepted address has: no whitespace anywhere, exactly one
      `@` with something before it, and a `.` in the domain that is neither
      the domain's first nor its last character. */
  ghost predicate EmailShape(s: string) {
    && (forall i | 0 <= i < |s| :: !IsJsWhitespace(s[i]))
    && exists at :: IsSoleAt(s, at) && at > 0 && exists dot :: at + 1 < dot < |s| - 1 && s[dot] == '.'
  }

  /** The pattern accepts exactly the strings with those features. */
  lemma EmailPatternIsShape(s: string)
    ensures EmailPattern(s) <==> EmailShape(s)
  {
    if EmailPattern(s) {
      var at, dot :| 0 <= at < dot < |s| && IsEmailSplit(s, at, dot);
      SplitCharacters(s, at, dot);
      assert IsSoleAt(s, at);
    }
    if EmailShape(s) {
      var at :| IsSoleAt(s, at) && at > 0 && exists dot :: at + 1 < dot < |s| - 1 && s[dot] == '.';
      var dot :| at + 1 < dot < |s| - 1 && s[dot] == '.';
      assert IsEmailSplit(s, at, dot) by {
        forall i | 0 <= i < |s| && i != at ensures IsAddressChar(s[i]) {
        }
      }
    }
  }

  /** What a matching split says about each character of the string. */
  lemma SplitCharacters(s: string, at: int, dot: int)
    requires IsEmailSplit(s, at, dot)
    ensures forall i | 0 <= i < |s| :: !IsJsWhitespace(s[i])
    ensures forall i | 0 <= i < |s| && i != at :: s[i] != '@'
    ensures at > 0 && at + 1 < dot < |s| - 1
  {
    forall i | 0 <= i < |s| && i != at && i != dot ensures IsAddressChar(s[i]) {
      if i < at {
        assert s[i] == s[..at][i];
      } else if i < dot {
        assert s[i] == s[at + 1..dot][i - at - 1];
      } else {
        assert s[i] == s[dot + 1..][i - dot - 1];
      }
    }
  }

  /** `isValidEmail`: a missing or empty value is rejected before the pattern
      is tried; otherwise the pattern decides. */
  function IsValidEmail(email: Option<string>): (ok: bool)
    ensures email.None? || email == Some("") ==> !ok
    ensures ok <==> email.Some? && EmailShape(email.value)
  {
    if email.None? || email.value == "" then false
    else
      EmailPatternIsShape(email.value);
      EmailPattern(email.value)
  }

  // ---------------------------------------------------------------------------
  // CSV serialisation
  // ---------------------------------------------------------------------------

  /** The values a CSV cell is built from: null or undefined, a string, or a
      number (only `chainId` is one, and it is integral). */
  datatype CsvValue = Absent | Str(s: string) | Num(n: int)

  /** `value == null ? "" : String(value)`. */
  function Stringify(v: CsvValue): string {
    match v
    case Absent => ""
    case Str(s) => s
    case Num(n) => DecimalString(n)
  }

  /** The characters of `/[",\n]/`. A carriage return is not among them. */
  predicate IsSpecial(c: char) {
    c == '"' || c == ',' || c == '\n'
  }

  predicate NeedsQuotes(s: string) {
    exists i | 0 <= i < |s| :: IsSpecial(s[i])
  }

  /** `s.replace(/"/g, '""')`. */
  function DoubleQuotes(s: string): (r: string)
    ensures |r| >= |s|
  {
    if s == [] then ""
    else (if s[0] == '"' then "\"\"" else [s[0]]) + DoubleQuotes(s[1..])
  }

  /** `csvEscape`. */
  function CsvEscape(v: CsvValue): (r: string)
    ensures v.Absent? ==> r == ""
    ensures !NeedsQuotes(Stringify(v)) ==> r == Stringify(v)
    ensures NeedsQuotes(Stringify(v)) ==> |r| >= 2 && r[0] == '"' && r[|r| - 1] == '"'
  {
    var s := Stringify(v);
    if NeedsQuotes(s) then "\"" + DoubleQuotes(s) + "\"" else s
  }

  /** `rows.map(...)`'s inner `.map(csvEscape)`. */
  function EscapeAll(vs: seq<CsvValue>): (r: seq<string>)
    ensures |r| == |vs|
  {
    seq(|vs|, i requires 0 <= i < |vs| => CsvEscape(vs[i]))
  }

  /** What a reader should recover from each cell. */
  function StringifyAll(vs: seq<CsvValue>): (r: seq<string>)
    ensures |r| == |vs|
  {
    seq(|vs|, i requires 0 <= i < |vs| => Stringify(vs[i]))
  }

  const ByteOrderMark: string := "\U{FEFF}"

  const HeaderNames: seq<string> := [
    "timestamp", "protocol", "borrower", "liquidator", "txHash",
    "collateralAsset", "debtAsset", "repaidAssets", "seizedAssets", "chainId"
  ]

  /** The ten cells of a data line, in header order. Absent optional fields
      are written as empty strings (`?? ""`), `chainId` through `String`. */
  function RowValues(x: Liquidation): (vs: seq<CsvValue>)
    ensures |vs| == |HeaderNames|
  {
    [ Str(x.timestamp), Str(x.protocol), Str(x.borrower), Str(x.liquidator), Str(x.txHash),
      Str(x.collateralAsset.GetOr("")), Str(x.debtAsset.GetOr("")),
      Str(x.repaidAssets.GetOr("")), Str(x.seizedAssets.GetOr("")),
      Num(x.chainId) ]
  }

  /** The text a reader recovers from a data line: the record's fields in
      header order, with empty text for absent optional fields. */
  function RowTexts(x: Liquidation): (texts: seq<string>)
    ensures |texts| == |HeaderNames|
  {
    [ x.timestamp, x.protocol, x.borrower, x.liquidator, x.txHash,
      x.collateralAsset.GetOr(""), x.debtAsset.GetOr(""),
      x.repaidAssets.GetOr(""), x.seizedAssets.GetOr(""),
      DecimalString(x.chainId) ]
  }

  lemma RowTextsAreStringified(x: Liquidation)
    ensures StringifyAll(RowValues(x)) == RowTexts(x)
  {
  }

  /** One data line: the escaped cells joined by commas. */
  function Line(x: Liquidation): string {
    Join(",", EscapeAll(RowValues(x)))
  }

  function Lines(rows: seq<Liquidation>): (r: seq<string>)
    ensures |r| == |rows|
  {
    seq(|rows|, i requires 0 <= i < |rows| => Line(rows[i]))
  }

  /** `toCsv`: byte-order mark, header, a line feed, then the data lines
      joined by line feeds (no line feed after the last one). */
  function ToCsv(rows: seq<Liquidation>): (csv: string)
    ensures |csv| > 0 && csv[0] == '\U{FEFF}'
    ensures rows == [] ==> csv == ByteOrderMark + Join(",", HeaderNames) + "\n"
  {
    ByteOrderMark + Join(",", HeaderNames) + "\n" + Join("\n", Lines(rows))
  }

  /** A field holding a carriage return but no quote, comma or line feed is
      written as it is, unquoted, although section 2 of RFC 4180 allows CR
      in a field only inside quotes. */
  lemma BareCarriageReturnNotQuoted(s: string)
    requires '\r' in s && !NeedsQuotes(s)
    ensures CsvEscape(Str(s)) == s
  {
  }

  // ---------------------------------------------------------------------------
  // Limit and handler
  // ---------------------------------------------------------------------------

  /** The effective export limit. `param` is the `limit` query parameter as
      `Number` reads it (`None` when the parameter is missing). */
  function ExportLimit(param: Option<JsNumber>): (limit: real)
    ensures 1.0 <= limit <= 10000.0
    ensures param.None? || !param.value.IsFinite() ==> limit == 1000.0
    ensures param.Some? && param.value.Finite? ==>
              var x := param.value.value;
              && (x < 1.0 ==> limit == 1.0)
              && (x > 10000.0 ==> limit == 10000.0)
              && (1.0 <= x <= 10000.0 ==> limit == x)
  {
    var requested := param.GetOr(Finite(1000.0));
    var candidate := if requested.IsFinite() then requested else Finite(1000.0);
    JsMax(Finite(1.0), JsMin(Finite(10000.0), candidate)).value
  }

  /** How the upstream request ended: the fetch itself rejected, the response
      was not ok, or it was ok with a body that is either usable JSON or not
      (`None` also stands for a JSON body such as `null` or a non-array
      `GeneralizedLiquidation`, on which the handler throws). */
  datatype UpstreamOutcome = FetchRejected | NotOk | Ok(body: Option<Payload>)

  datatype Response =
    | ErrorJson(status: int, error: string)
    | CsvAttachment(status: int, contentType: string, cacheControl: string, disposition: Option<string>,
                    limit: real, csv: string)

  /** What the handler did: the `limit` variable of the upstream request it
      sent, if it sent one, and the response it returned. */
  datatype Exchange = Exchange(upstreamLimit: Option<real>, response: Response)

  /** The `Content-Disposition` value for a limit written as `limitText`. */
  function Disposition(limitText: string): string {
    "attachment; filename=\"" + ExportFilename(limitText) + "\""
  }

  function ExportFilename(limitText: string): string {
    "liqo_recent_" + limitText + ".csv"
  }

  /** `String(limit)` for an integral limit: its decimal digits. The text
      JavaScript gives a fractional number is not modelled (`None`). */
  function LimitText(limit: real): (text: Option<string>)
    ensures text.Some? <==> limit == limit.Floor as real
    ensures text.Some? ==> ParseDecimal(text.value) == Some(limit.Floor)
  {
    if limit == limit.Floor as real then
      DecimalRoundTrip(limit.Floor);
      Some(DecimalString(limit.Floor))
    else None
  }

  /** The GET handler: validate the email, then ask upstream, then build the CSV.
      Every failure after validation is caught and reported as 500. The
      attachment is named after the clamped limit. */
  function HandleExport(email: Option<string>, limitParam: Option<JsNumber>, upstream: UpstreamOutcome): (x: Exchange)
    ensures !IsValidEmail(email) ==> x == Exchange(None, ErrorJson(400, "Valid email is required"))
    ensures IsValidEmail(email) ==> x.upstreamLimit == Some(ExportLimit(limitParam))
    ensures IsValidEmail(email) && upstream.NotOk? ==> x.response == ErrorJson(502, "Upstream request failed")
    ensures IsValidEmail(email) && (upstream.FetchRejected? || upstream == Ok(None)) ==>
              x.response == ErrorJson(500, "Failed to generate CSV")
    ensures x.response.status == 200 <==> IsValidEmail(email) && upstream.Ok? && upstream.body.Some?
    ensures x.response.CsvAttachment? ==>
              && upstream.Ok? && upstream.body.Some?
              && x.response.csv == ToCsv(Rows(upstream.body.value))
              && x.response.limit == ExportLimit(limitParam)
              && x.response.contentType == "text/csv; charset=utf-8"
              && x.response.cacheControl == "no-store, max-age=0"
    ensures x.response.CsvAttachment? && x.response.limit == x.response.limit.Floor as real ==>
              x.response.disposition == Some(Disposition(DecimalString(x.response.limit.Floor)))
  {
    var limit := ExportLimit(limitParam);
    if !IsValidEmail(email) then
      Exchange(None, ErrorJson(400, "Valid email is required"))
    else
      var disposition := match LimitText(limit) case Some(t) => Some(Disposition(t)) case None => None;
      var response :=
        match upstream
        case FetchRejected => ErrorJson(500, "Failed to generate CSV")
        case NotOk => ErrorJson(502, "Upstream request failed")
        case Ok(None) => ErrorJson(500, "Failed to generate CSV")
        case Ok(Some(payload)) =>
          CsvAttachment(200, "text/csv; charset=utf-8", "no-store, max-age=0", disposition, limit, ToCsv(Rows(payload)));
      Exchange(Some(limit), response)
  }

  /** An export requested with an integral limit `k`, or with none, names its
      attachment after the clamped limit: `k` within [1, 10000], 1 below,
      10000 above, 1000 when missing. */
  lemma AttachmentNamedAfterClampedLimit(email: string, k: Option<int>, payload: Payload)
    requires IsValidEmail(Some(email))
    ensures var param := if k.Some? then Some(Finite(k.value as real)) else None;
            var n := if k.None? then 1000 else if k.value < 1 then 1 else if k.value > 10000 then 10000 else k.value;
            HandleExport(Some(email), param, Ok(Some(payload))).response.disposition
              == Some(Disposition(DecimalString(n)))
  {
    var param := if k.Some? then Some(Finite(k.value as real)) else None;
    var n := if k.None? then 1000 else if k.value < 1 then 1 else if k.value > 10000 then 10000 else k.value;
    assert ExportLimit(param) == n as real;
    assert (n as real).Floor == n;
  }

  /** For an integral limit the suggested filename carries the limit's digits,
      and they read back as the limit. */
  lemma FilenameCarriesLimit(n: int)
    ensures var name := ExportFilename(DecimalString(n));
            && name[..12] == "liqo_recent_"
            && name[|name| - 4..] == ".csv"
            && ParseDecimal(name[12..|name| - 4]) == Some(n)
  {
    var name := ExportFilename(DecimalString(n));
    assert name[12..|name| - 4] == DecimalString(n);
    DecimalRoundTrip(n);
  }
}
