/** The liquidations table's custom column filters: the free-text search and
    the two multi-select filters. Each is a predicate on one row's record and
    the filter value; the table library that calls them and combines their
    verdicts is not part of this model. */
module Table {
  import opened Optional
  import opened Text
  import opened Records

  // ---------------------------------------------------------------------------
  // Free-text search
  // ---------------------------------------------------------------------------

  /** The six searched fields, in template order; an absent or empty asset
      contributes empty text (`|| ''`). */
  function SearchFields(row: Liquidation): (fields: seq<string>)
    ensures |fields| == 6
  {
    [ row.borrower, row.liquidator, row.protocol, row.txHash,
      row.collateralAsset.GetOr(""), row.debtAsset.GetOr("") ]
  }

  /** The template literal's layout: each field on its own line after four
      spaces of indentation, then a final line of two spaces. */
  function Layout(fields: seq<string>): string {
    if fields == [] then "\n  " else "\n    " + fields[0] + Layout(fields[1..])
  }

  /** `searchableRowContent`. */
  function SearchableContent(row: Liquidation): string {
    LowerStr(Layout(SearchFields(row)))
  }

  /** `multiColumnFilterFn`. The column it is attached to plays no part. */
  function MultiColumnFilter(row: Liquidation, columnId: string, filterValue: Option<string>): (matches: bool)
    ensures filterValue.None? || filterValue == Some("") ==> matches
  {
    IncludesEmpty(SearchableContent(row));
    Includes(SearchableContent(row), LowerStr(filterValue.GetOr("")))
  }

  /** True when the text holds neither a space nor a line feed, the two
      characters the layout puts between fields. */
  predicate NoLayoutChars(s: string) {
    forall i :: 0 <= i < |s| ==> s[i] != ' ' && s[i] != '\n'
  }

  /** Each field lower-cased. */
  function LowerAll(fields: seq<string>): (r: seq<string>)
    ensures |r| == |fields|
    ensures forall k :: 0 <= k < |fields| ==> r[k] == LowerStr(fields[k])
  {
    if fields == [] then [] else [LowerStr(fields[0])] + LowerAll(fields[1..])
  }

  /** Lower-casing the layout lower-cases each field and keeps the layout. */
  lemma {:induction false} LowerLayout(fields: seq<string>)
    ensures LowerStr(Layout(fields)) == Layout(LowerAll(fields))
  {
    if fields != [] {
      LowerLayout(fields[1..]);
      assert LowerAll(fields)[1..] == LowerAll(fields[1..]);
      LowerConcat("\n    " + fields[0], Layout(fields[1..]));
      LowerConcat("\n    ", fields[0]);
    }
  }

  /** Where an occurrence in `x + y` lies: inside `x`, inside `y`, or across
      the boundary, in which case it holds `y[0]`. */
  lemma OccurrenceInConcat(x: string, y: string, needle: string, i: int)
    requires OccursAt(x + y, needle, i)
    ensures i + |needle| <= |x| ==> OccursAt(x, needle, i)
    ensures i >= |x| ==> OccursAt(y, needle, i - |x|)
    ensures i < |x| < i + |needle| ==> needle[|x| - i] == y[0]
  {
    if i + |needle| <= |x| {
      assert (x + y)[i..i + |needle|] == x[i..i + |needle|];
    }
    if i >= |x| {
      assert (x + y)[i..i + |needle|] == y[i - |x|..i - |x| + |needle|];
    }
    if i < |x| < i + |needle| {
      assert needle[|x| - i] == (x + y)[i..i + |needle|][|x| - i] == (x + y)[|x|];
    }
  }

  /** Text made only of spaces and line feeds holds no such needle. */
  lemma NoOccurrenceInIndentation(hay: string, needle: string)
    requires |needle| > 0 && NoLayoutChars(needle)
    requires forall j :: 0 <= j < |hay| ==> hay[j] == ' ' || hay[j] == '\n'
    ensures !Includes(hay, needle)
  {
    forall i | 0 <= i <= |hay|
      ensures !OccursAt(hay, needle, i)
    {
      assert i < |hay| ==> hay[i] != needle[0];
    }
  }

  /** A needle without spaces or line feeds occurs in the layout exactly when
      it occurs in one of the fields: it cannot straddle a field boundary. */
  lemma LayoutSearch(fields: seq<string>, needle: string)
    requires |needle| > 0 && NoLayoutChars(needle)
    ensures Includes(Layout(fields), needle) <==> exists k :: 0 <= k < |fields| && Includes(fields[k], needle)
  {
    LayoutOccurrenceInField(fields, needle);
    if exists k :: 0 <= k < |fields| && Includes(fields[k], needle) {
      var k :| 0 <= k < |fields| && Includes(fields[k], needle);
      LayoutFieldIncluded(fields, needle, k);
    }
  }

  /** An occurrence in the layout lies inside one field. */
  lemma {:induction false} LayoutOccurrenceInField(fields: seq<string>, needle: string)
    requires |needle| > 0 && NoLayoutChars(needle)
    ensures Includes(Layout(fields), needle) ==> exists k :: 0 <= k < |fields| && Includes(fields[k], needle)
  {
    if fields == [] {
      NoOccurrenceInIndentation(Layout(fields), needle);
    } else {
      var head, rest := "\n    " + fields[0], Layout(fields[1..]);
      LayoutOccurrenceInField(fields[1..], needle);
      assert Layout(fields) == head + rest;
      assert rest[0] == '\n';
      if Includes(Layout(fields), needle) {
        var i :| 0 <= i <= |Layout(fields)| && OccursAt(head + rest, needle, i);
        OccurrenceInConcat(head, rest, needle, i);
        assert needle[0] == (head + rest)[i..i + |needle|][0] == (head + rest)[i];
        assert i >= 5;
        assert !(i < |head| < i + |needle|);
        if i + |needle| <= |head| {
          OccurrenceInConcat("\n    ", fields[0], needle, i);
          assert OccursAt(fields[0], needle, i - 5);
        } else {
          var k :| 0 <= k < |fields[1..]| && Includes(fields[1..][k], needle);
          assert Includes(fields[k + 1], needle);
        }
      }
    }
  }

  /** For a search term without spaces or line feeds, a row matches exactly
      when the lower-cased term occurs in one of its six lower-cased fields. */
  lemma SearchMatchesSomeField(row: Liquidation, columnId: string, term: string)
    requires NoLayoutChars(term)
    ensures MultiColumnFilter(row, columnId, Some(term)) <==>
              exists k :: 0 <= k < 6 && Includes(LowerStr(SearchFields(row)[k]), LowerStr(term))
  {
    var fields := SearchFields(row);
    LowerLayout(fields);
    if term == [] {
      IncludesEmpty(LowerStr(fields[0]));
    } else {
      LayoutSearch(LowerAll(fields), LowerStr(term));
    }
  }

  /** A field that contains the term, ignoring ASCII case, makes the row match. */
  lemma FieldMatchMatchesRow(row: Liquidation, columnId: string, term: string, k: nat)
    requires k < 6
    requires Includes(LowerStr(SearchFields(row)[k]), LowerStr(term))
    ensures MultiColumnFilter(row, columnId, Some(term))
  {
    var fields := SearchFields(row);
    LowerLayout(fields);
    LayoutFieldIncluded(LowerAll(fields), LowerStr(term), k);
  }

  /** An occurrence in a field is an occurrence in the layout. */
  lemma {:induction false} LayoutFieldIncluded(fields: seq<string>, needle: string, k: nat)
    requires k < |fields| && Includes(fields[k], needle)
    ensures Includes(Layout(fields), needle)
  {
    var rest := Layout(fields[1..]);
    if k == 0 {
      IncludesInfix("\n    ", fields[0], rest, needle);
    } else {
      LayoutFieldIncluded(fields[1..], needle, k - 1);
      IncludesInfix("\n    " + fields[0], rest, "", needle);
      assert "\n    " + fields[0] + rest + "" == Layout(fields);
    }
  }

  /** A search for a single space matches every row: the indentation the
      layout adds is searched along with the fields. */
  lemma SpaceMatchesEveryRow(row: Liquidation, columnId: string)
    ensures MultiColumnFilter(row, columnId, Some(" "))
  {
    var content := SearchableContent(row);
    assert Layout(SearchFields(row))[1] == ' ';
    assert content[1] == ' ';
    assert content[1..2] == " ";
    assert OccursAt(content, LowerStr(" "), 1);
  }

  /** Lower-casing the term first changes nothing: the search ignores case. */
  lemma SearchIgnoresTermCase(row: Liquidation, columnId: string, term: string)
    ensures MultiColumnFilter(row, columnId, Some(LowerStr(term))) == MultiColumnFilter(row, columnId, Some(term))
  {
    LowerStrIdempotent(term);
  }

  // ---------------------------------------------------------------------------
  // Multi-select filters
  // ---------------------------------------------------------------------------

  /** The shared rule of `protocolFilterFn` and `chainFilterFn`: a missing or
      empty selection lets every row through, otherwise the row's value must
      be one of the selected values. */
  predicate InSelection<T(==)>(value: T, selection: Option<seq<T>>) {
    selection.None? || |selection.value| == 0 || value in selection.value
  }

  /** `protocolFilterFn`, attached to the protocol column. */
  function ProtocolFilter(row: Liquidation, selection: Option<seq<string>>): (matches: bool)
    ensures selection.None? || selection == Some([]) ==> matches
    ensures selection.Some? && selection.value != [] ==> (matches <==> row.protocol in selection.value)
  {
    InSelection(row.protocol, selection)
  }

  /** `chainFilterFn`, attached to the chain column. */
  function ChainFilter(row: Liquidation, selection: Option<seq<int>>): (matches: bool)
    ensures selection.None? || selection == Some([]) ==> matches
    ensures selection.Some? && selection.value != [] ==> (matches <==> row.chainId in selection.value)
  {
    InSelection(row.chainId, selection)
  }

  /** Selecting one more value never drops a row from a non-empty selection. */
  lemma WiderSelectionKeepsMatches<T>(value: T, selected: seq<T>, extra: T)
    requires |selected| > 0 && InSelection(value, Some(selected))
    ensures InSelection(value, Some(selected + [extra]))
  {
  }

  /** From the empty selection, adding a value can drop rows: the empty
      selection means "no filter", not "nothing selected". */
  lemma FirstSelectionNarrows(row: Liquidation, other: string)
    requires other != row.protocol
    ensures ProtocolFilter(row, Some([])) && !ProtocolFilter(row, Some([other]))
  {
  }
}
