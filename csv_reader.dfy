/** A reader for comma-separated text in the grammar of section 2 of RFC 4180,
    with one deliberate difference that matches the writer in `ExportRoute`:
    records are separated by a line feed alone, not CR LF, so a carriage return
    is ordinary field text. It is the partner of `ExportRoute.ToCsv`: reading
    back what the export writes gives the header and every record's fields. */
module CsvReader {
  import opened Optional
  import opened Text
  import opened Records
  import opened ExportRoute

  /** An unquoted field runs up to the next comma or line feed, or the end. */
  function ReadUnquoted(t: string): (r: (string, string))
    ensures r.0 + r.1 == t
    ensures forall i :: 0 <= i < |r.0| ==> r.0[i] != ',' && r.0[i] != '\n'
    ensures AtFieldEnd(r.1)
  {
    if t == [] || t[0] == ',' || t[0] == '\n' then ("", t)
    else
      var (f, rest) := ReadUnquoted(t[1..]);
      ([t[0]] + f, rest)
  }

  /** What may follow a field: nothing, a comma or a line feed. */
  predicate AtFieldEnd(rest: string) {
    rest == [] || rest[0] == ',' || rest[0] == '\n'
  }

  /** The inside of a quoted field, read after its opening quote: `""` stands
      for one quote and a lone `"` closes the field (rule 7). `None` when the
      closing quote is missing. */
  function ReadQuoted(t: string): (r: Option<(string, string)>)
    ensures r.Some? ==> |r.value.1| < |t|
  {
    if t == [] then None
    else if t[0] == '"' then
      if |t| > 1 && t[1] == '"' then
        match ReadQuoted(t[2..])
        case None => None
        case Some((f, rest)) => Some(("\"" + f, rest))
      else Some(("", t[1..]))
    else
      match ReadQuoted(t[1..])
      case None => None
      case Some((f, rest)) => Some(([t[0]] + f, rest))
  }

  /** One field (rules 5 to 7): a quoted field must be followed by a comma, a
      line feed or the end; an unquoted field may not contain a quote. */
  function ReadField(t: string): (r: Option<(string, string)>)
    ensures r.Some? ==> |r.value.1| <= |t| && AtFieldEnd(r.value.1)
  {
    if |t| > 0 && t[0] == '"' then
      match ReadQuoted(t[1..])
      case None => None
      case Some((f, rest)) => if AtFieldEnd(rest) then Some((f, rest)) else None
    else
      var (f, rest) := ReadUnquoted(t);
      if '"' in f then None else Some((f, rest))
  }

  /** Fields separated by commas, up to a line feed or the end (rule 4). */
  function ReadRecord(t: string): (r: Option<(seq<string>, string)>)
    ensures r.Some? ==> |r.value.0| >= 1 && |r.value.1| <= |t| && (r.value.1 == [] || r.value.1[0] == '\n')
    decreases |t|
  {
    match ReadField(t)
    case None => None
    case Some((f, rest)) =>
      if rest != [] && rest[0] == ',' then
        match ReadRecord(rest[1..])
        case None => None
        case Some((fs, rest')) => Some(([f] + fs, rest'))
      else Some(([f], rest))
  }

  /** Records separated by line feeds; a line feed at the very end closes the
      last record (rule 2). */
  function ReadRecords(t: string): (r: Option<seq<seq<string>>>)
    decreases |t|
  {
    match ReadRecord(t)
    case None => None
    case Some((fields, rest)) =>
      if rest == [] || rest == "\n" then Some([fields])
      else
        match ReadRecords(rest[1..])
        case None => None
        case Some(more) => Some([fields] + more)
  }

  /** A whole document, skipping a leading byte-order mark. */
  function ReadDocument(t: string): Option<seq<seq<string>>> {
    if |t| > 0 && t[0] == '\U{FEFF}' then ReadRecords(t[1..]) else ReadRecords(t)
  }

  // ---------------------------------------------------------------------------
  // Round trips
  // ---------------------------------------------------------------------------

  /** Reading a doubled-quote body and its closing quote gives back the text. */
  lemma {:induction false} QuotedRoundTrip(s: string, rest: string)
    requires rest == [] || rest[0] != '"'
    ensures ReadQuoted(DoubleQuotes(s) + "\"" + rest) == Some((s, rest))
  {
    var t := DoubleQuotes(s) + "\"" + rest;
    if s == [] {
      assert t == "\"" + rest;
      assert t[1..] == rest;
    } else {
      var inner := DoubleQuotes(s[1..]) + "\"" + rest;
      QuotedRoundTrip(s[1..], rest);
      if s[0] == '"' {
        assert t == "\"\"" + inner;
        assert t[2..] == inner;
        assert "\"" + s[1..] == s;
      } else {
        assert t == [s[0]] + inner;
        assert t[1..] == inner;
        assert [s[0]] + s[1..] == s;
      }
    }
  }

  /** Text without commas or line feeds reads back as one unquoted field. */
  lemma {:induction false} UnquotedRoundTrip(s: string, rest: string)
    requires forall i :: 0 <= i < |s| ==> s[i] != ',' && s[i] != '\n'
    requires AtFieldEnd(rest)
    ensures ReadUnquoted(s + rest) == (s, rest)
  {
    if s == [] {
      assert s + rest == rest;
    } else {
      assert (s + rest)[0] == s[0];
      assert (s + rest)[1..] == s[1..] + rest;
      UnquotedRoundTrip(s[1..], rest);
      assert [s[0]] + s[1..] == s;
    }
  }

  /** Every escaped cell reads back as the text `String(value)` gives it, when
      it is followed by a comma, a line feed or the end. */
  lemma FieldRoundTrip(v: CsvValue, rest: string)
    requires AtFieldEnd(rest)
    ensures ReadField(CsvEscape(v) + rest) == Some((Stringify(v), rest))
  {
    var s := Stringify(v);
    if NeedsQuotes(s) {
      QuotedFieldRoundTrip(s, rest);
    } else {
      PlainFieldRoundTrip(s, rest);
    }
  }

  lemma QuotedFieldRoundTrip(s: string, rest: string)
    requires AtFieldEnd(rest)
    ensures ReadField("\"" + DoubleQuotes(s) + "\"" + rest) == Some((s, rest))
  {
    var d := DoubleQuotes(s);
    Regroup("\"", d, "\"", rest);
    Regroup3(d, "\"", rest);
    DropHead("\"", d + ("\"" + rest));
    QuotedRoundTrip(s, rest);
  }

  lemma PlainFieldRoundTrip(s: string, rest: string)
    requires AtFieldEnd(rest)
    requires !NeedsQuotes(s)
    ensures ReadField(s + rest) == Some((s, rest))
  {
    assert forall i :: 0 <= i < |s| ==> !IsSpecial(s[i]);
    UnquotedRoundTrip(s, rest);
    assert '"' !in s;
    if |s| > 0 {
      assert (s + rest)[0] == s[0];
    } else {
      assert s + rest == rest;
    }
  }

  /** A line of escaped cells reads back as the cells' texts, in order. */
  lemma {:induction false} RecordRoundTrip(vs: seq<CsvValue>, rest: string)
    requires |vs| >= 1
    requires rest == [] || rest[0] == '\n'
    ensures ReadRecord(Join(",", EscapeAll(vs)) + rest) == Some((StringifyAll(vs), rest))
  {
    CellsCons(vs);
    if |vs| == 1 {
      SingleCellRecord(vs[0], rest);
    } else {
      RecordRoundTrip(vs[1..], rest);
      CellThenRecord(vs[0], EscapeAll(vs[1..]), StringifyAll(vs[1..]), rest);
    }
  }

  /** The escaped and the stringified cells, first cell split off. */
  lemma CellsCons(vs: seq<CsvValue>)
    requires |vs| >= 1
    ensures EscapeAll(vs) == [CsvEscape(vs[0])] + EscapeAll(vs[1..])
    ensures StringifyAll(vs) == [Stringify(vs[0])] + StringifyAll(vs[1..])
    ensures |vs| == 1 ==> EscapeAll(vs) == [CsvEscape(vs[0])] && StringifyAll(vs) == [Stringify(vs[0])]
  {
  }

  /** A record of one escaped cell. */
  lemma SingleCellRecord(v: CsvValue, rest: string)
    requires rest == [] || rest[0] == '\n'
    ensures ReadRecord(Join(",", [CsvEscape(v)]) + rest) == Some(([Stringify(v)], rest))
  {
    FieldRoundTrip(v, rest);
    LastField(CsvEscape(v) + rest, Stringify(v), rest);
  }

  /** An escaped cell and a comma in front of a record that reads back. */
  lemma CellThenRecord(v: CsvValue, cells: seq<string>, texts: seq<string>, rest: string)
    requires |cells| >= 1
    requires ReadRecord(Join(",", cells) + rest) == Some((texts, rest))
    ensures ReadRecord(Join(",", [CsvEscape(v)] + cells) + rest) == Some(([Stringify(v)] + texts, rest))
  {
    var e := CsvEscape(v);
    var tail := Join(",", cells) + rest;
    JoinCons(",", e, cells);
    Regroup(e, ",", Join(",", cells), rest);
    FieldRoundTrip(v, "," + tail);
    NextField(e + ("," + tail), Stringify(v), tail);
  }

  /** `ReadRecord` after a field that ends the record. */
  lemma LastField(t: string, f: string, rest: string)
    requires ReadField(t) == Some((f, rest))
    requires rest == [] || rest[0] == '\n'
    ensures ReadRecord(t) == Some(([f], rest))
  {
  }

  /** `ReadRecord` after a field followed by a comma. */
  lemma NextField(t: string, f: string, tail: string)
    requires ReadField(t) == Some((f, "," + tail))
    requires ReadRecord(tail).Some?
    ensures ReadRecord(t) == Some(([f] + ReadRecord(tail).value.0, ReadRecord(tail).value.1))
  {
    assert ("," + tail)[1..] == tail;
  }

  /** The records a reader should find after the header. */
  function ExpectedRecords(rows: seq<Liquidation>): (r: seq<seq<string>>)
    ensures |r| == |rows|
  {
    seq(|rows|, i requires 0 <= i < |rows| => RowTexts(rows[i]))
  }

  /** Each data line reads back as its record's ten fields. */
  lemma LineRoundTrip(x: Liquidation, rest: string)
    requires rest == [] || rest[0] == '\n'
    ensures ReadRecord(Line(x) + rest) == Some((RowTexts(x), rest))
    ensures |Line(x)| >= 9
  {
    RecordRoundTrip(RowValues(x), rest);
    RowTextsAreStringified(x);
    JoinNonEmpty(",", EscapeAll(RowValues(x)));
  }

  /** `line` is non-empty and reads as the record `fields` whatever ends it. */
  ghost predicate ReadsAsRecord(line: string, fields: seq<string>) {
    && |line| > 0
    && forall rest: string {:trigger line + rest} ::
         rest == [] || rest[0] == '\n' ==> ReadRecord(line + rest) == Some((fields, rest))
  }

  /** Lines that each read as a record, joined by line feeds, read as the
      list of those records. */
  lemma {:induction false} JoinedLinesRoundTrip(lines: seq<string>, records: seq<seq<string>>)
    requires |lines| == |records| >= 1
    requires forall i | 0 <= i < |lines| :: ReadsAsRecord(lines[i], records[i])
    ensures ReadRecords(Join("\n", lines)) == Some(records)
  {
    assert ReadsAsRecord(lines[0], records[0]);
    if |lines| == 1 {
      assert lines[0] + "" == lines[0];
      assert ReadRecord(lines[0] + "") == Some((records[0], ""));
      LastRecord(lines[0], records[0], "");
      assert records == [records[0]];
    } else {
      var tail := Join("\n", lines[1..]);
      assert ReadsAsRecord(lines[1], records[1]);
      JoinNonEmptyFirst(lines[1..]);
      JoinUncons("\n", lines);
      assert ReadRecord(lines[0] + ("\n" + tail)) == Some((records[0], "\n" + tail));
      JoinedLinesRoundTrip(lines[1..], records[1..]);
      NextRecord(lines[0] + ("\n" + tail), records[0], tail);
      assert records == [records[0]] + records[1..];
    }
  }

  /** The data lines, joined by line feeds, read back as the records. */
  lemma LinesRoundTrip(rows: seq<Liquidation>)
    requires |rows| >= 1
    ensures ReadRecords(Join("\n", Lines(rows))) == Some(ExpectedRecords(rows))
  {
    var ls, recs := Lines(rows), ExpectedRecords(rows);
    forall i | 0 <= i < |rows| ensures ReadsAsRecord(ls[i], recs[i]) {
      forall rest: string | rest == [] || rest[0] == '\n'
        ensures ReadRecord(ls[i] + rest) == Some((recs[i], rest))
      {
        LineRoundTrip(rows[i], rest);
      }
      LineRoundTrip(rows[i], "");
    }
    JoinedLinesRoundTrip(ls, recs);
  }

  /** `ReadRecords` after the last record. */
  lemma LastRecord(t: string, fields: seq<string>, rest: string)
    requires ReadRecord(t) == Some((fields, rest))
    requires rest == [] || rest == "\n"
    ensures ReadRecords(t) == Some([fields])
  {
  }

  /** `ReadRecords` after a record followed by a line feed and more text. */
  lemma NextRecord(t: string, fields: seq<string>, tail: string)
    requires ReadRecord(t) == Some((fields, "\n" + tail))
    requires tail != []
    requires ReadRecords(tail).Some?
    ensures ReadRecords(t) == Some([fields] + ReadRecords(tail).value)
  {
    assert ("\n" + tail)[1..] == tail;
  }

  /** A join is at least as long as its first part. */
  lemma JoinNonEmptyFirst(parts: seq<string>)
    requires |parts| >= 1
    ensures |Join("\n", parts)| >= |parts[0]|
  {
  }

  /** The header escapes to itself: none of its names needs quotes. */
  lemma HeaderRoundTrip(rest: string)
    requires rest == [] || rest[0] == '\n'
    ensures ReadRecord(Join(",", HeaderNames) + rest) == Some((HeaderNames, rest))
  {
    var hv := seq(|HeaderNames|, i requires 0 <= i < |HeaderNames| => Str(HeaderNames[i]));
    assert forall k | 0 <= k < |HeaderNames| :: !NeedsQuotes(HeaderNames[k]);
    assert EscapeAll(hv) == HeaderNames;
    assert StringifyAll(hv) == HeaderNames;
    RecordRoundTrip(hv, rest);
  }

  /** A marked document whose first line reads as `header` and whose body
      (after the first line feed) reads as `records`. */
  lemma {:induction false} MarkedDocument(headerLine: string, header: seq<string>, body: string, records: seq<seq<string>>)
    requires ReadsAsRecord(headerLine, header)
    requires body == [] ==> records == []
    requires body != [] ==> ReadRecords(body) == Some(records)
    ensures ReadDocument(ByteOrderMark + headerLine + "\n" + body) == Some([header] + records)
  {
    var afterMark := headerLine + ("\n" + body);
    Regroup(ByteOrderMark, headerLine, "\n", body);
    DropHead(ByteOrderMark, afterMark);
    assert ReadRecord(headerLine + ("\n" + body)) == Some((header, "\n" + body));
    if body == [] {
      assert "\n" + body == "\n";
      LastRecord(afterMark, header, "\n");
      assert [header] + records == [header];
    } else {
      NextRecord(afterMark, header, body);
    }
  }

  /** Reading the export back gives the header names, then each record's ten
      fields in the order the rows came, with nothing lost to quoting. */
  lemma DocumentRoundTrip(rows: seq<Liquidation>)
    ensures ReadDocument(ToCsv(rows)) == Some([HeaderNames] + ExpectedRecords(rows))
  {
    var headerLine := Join(",", HeaderNames);
    var body := Join("\n", Lines(rows));
    forall rest: string | rest == [] || rest[0] == '\n'
      ensures ReadRecord(headerLine + rest) == Some((HeaderNames, rest))
    {
      HeaderRoundTrip(rest);
    }
    assert |headerLine| > 0 by {
      JoinNonEmpty(",", HeaderNames);
    }
    if rows != [] {
      LineRoundTrip(rows[0], "");
      JoinNonEmptyFirst(Lines(rows));
      LinesRoundTrip(rows);
    }
    MarkedDocument(headerLine, HeaderNames, body, ExpectedRecords(rows));
  }
}
