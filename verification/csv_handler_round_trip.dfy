/**
 * Exporting records with the fixed-header handler and parsing the result with
 * the same handler gives the records' texts back, provided the values survive
 * the trip: no line breaks, no surrounding whitespace or quotes.
 */
module CsvHandlerRoundTrip {
  import opened Wrappers
  import opened JsString
  import opened Records
  import opened CsvLine
  import opened CsvHandler
  import opened SmartCsvRoundTrip

  // ---------------------------------------------------------------------------
  // The header row

  /** The export headers as the parser normalises them. */
  const LowerHeaders: seq<string> := ["reference_text", "context", "text_a", "text_b", "notes", "timestamp"]

  lemma {:induction false} RemoveQuotesKeeps(s: string)
    requires '"' !in s
    ensures RemoveQuotes(s) == s
  {
    if s != [] {
      RemoveQuotesKeeps(s[1..]);
    }
  }

  /** A header with non-blank ends whose ASCII lower-case form is `lower`, holding no quote, is normalised to `lower`. */
  lemma NameOf(h: string, lower: string)
    requires h != [] && !IsSpace(h[0]) && !IsSpace(h[|h| - 1])
    requires |h| == |lower| && forall i :: 0 <= i < |h| ==> AsciiLower(h[i]) == lower[i]
    requires forall i :: 0 <= i < |lower| ==> lower[i] != '"'
    ensures HeaderName(h) == lower
  {
    assert AsciiLowerStr(h) == lower;
    RemoveQuotesKeeps(lower);
  }

  /** Each export header is normalised to its lower-case form. */
  lemma HeaderNameAt(i: nat)
    requires i < 6
    ensures HeaderName(Headers[i]) == LowerHeaders[i]
  {
    match i
    case 0 =>
      assert Headers[0] == "Reference_Text" && LowerHeaders[0] == "reference_text";
      HeaderName0(Headers[0], LowerHeaders[0]);
    case 1 =>
      assert Headers[1] == "Context" && LowerHeaders[1] == "context";
      HeaderName1(Headers[1], LowerHeaders[1]);
    case 2 =>
      assert Headers[2] == "Text_A" && LowerHeaders[2] == "text_a";
      HeaderName2(Headers[2], LowerHeaders[2]);
    case 3 =>
      assert Headers[3] == "Text_B" && LowerHeaders[3] == "text_b";
      HeaderName3(Headers[3], LowerHeaders[3]);
    case 4 =>
      assert Headers[4] == "Notes" && LowerHeaders[4] == "notes";
      HeaderName4(Headers[4], LowerHeaders[4]);
    case 5 =>
      assert Headers[5] == "Timestamp" && LowerHeaders[5] == "timestamp";
      HeaderName5(Headers[5], LowerHeaders[5]);
  }

  lemma HeaderName0(h: string, lower: string)
    requires h == "Reference_Text" && lower == "reference_text"
    ensures HeaderName(h) == lower
  {
    forall i | 0 <= i < |h| ensures AsciiLower(h[i]) == lower[i] && lower[i] != '"' {
    }
    NameOf(h, lower);
  }

  lemma HeaderName1(h: string, lower: string)
    requires h == "Context" && lower == "context"
    ensures HeaderName(h) == lower
  {
    forall i | 0 <= i < |h| ensures AsciiLower(h[i]) == lower[i] && lower[i] != '"' {
    }
    NameOf(h, lower);
  }

  lemma HeaderName2(h: string, lower: string)
    requires h == "Text_A" && lower == "text_a"
    ensures HeaderName(h) == lower
  {
    forall i | 0 <= i < |h| ensures AsciiLower(h[i]) == lower[i] && lower[i] != '"' {
    }
    NameOf(h, lower);
  }

  lemma HeaderName3(h: string, lower: string)
    requires h == "Text_B" && lower == "text_b"
    ensures HeaderName(h) == lower
  {
    forall i | 0 <= i < |h| ensures AsciiLower(h[i]) == lower[i] && lower[i] != '"' {
    }
    NameOf(h, lower);
  }

  lemma HeaderName4(h: string, lower: string)
    requires h == "Notes" && lower == "notes"
    ensures HeaderName(h) == lower
  {
    forall i | 0 <= i < |h| ensures AsciiLower(h[i]) == lower[i] && lower[i] != '"' {
    }
    NameOf(h, lower);
  }

  lemma HeaderName5(h: string, lower: string)
    requires h == "Timestamp" && lower == "timestamp"
    ensures HeaderName(h) == lower
  {
    forall i | 0 <= i < |h| ensures AsciiLower(h[i]) == lower[i] && lower[i] != '"' {
    }
    NameOf(h, lower);
  }

  lemma HeaderCommaFree(i: nat)
    requires i < 6
    ensures ',' !in Headers[i] && '\n' !in Headers[i]
  {
    var hs := Headers;
    assert hs[0] == "Reference_Text" && hs[1] == "Context" && hs[2] == "Text_A";
    assert hs[3] == "Text_B" && hs[4] == "Notes" && hs[5] == "Timestamp";
  }

  /** A row of comma-free cells is read back as the cells' normalised names. */
  lemma NormalisedRow(cells: seq<string>, names: seq<string>)
    requires |cells| == |names| >= 1
    requires forall i :: 0 <= i < |cells| ==> ',' !in cells[i] && HeaderName(cells[i]) == names[i]
    ensures HeaderNames(Join(cells, ',')) == names
  {
    SplitJoin(cells, ',');
  }

  /** The exported header row is read back as the six normalised names. */
  lemma HeaderRowNames()
    ensures HeaderNames(Join(Headers, ',')) == LowerHeaders
  {
    forall i | 0 <= i < 6 ensures ',' !in Headers[i] && HeaderName(Headers[i]) == LowerHeaders[i] {
      HeaderCommaFree(i);
      HeaderNameAt(i);
    }
    NormalisedRow(Headers, LowerHeaders);
  }

  /** The exported header row is one non-blank line. */
  lemma HeaderRowLine()
    ensures '\n' !in Join(Headers, ',') && NonBlank(Join(Headers, ','))
  {
    forall i | 0 <= i < 6 ensures '\n' !in Headers[i] {
      HeaderCommaFree(i);
    }
    JoinAvoids(Headers, ',', '\n');
    JoinHasSeparator(Headers, ',');
    NonBlankAt(Join(Headers, ','));
  }

  /** The normalised export headers name every required column. */
  lemma NothingMissing()
    ensures Missing(RequiredColumns, LowerHeaders) == []
  {
    assert RequiredColumns[0] == LowerHeaders[0] && RequiredColumns[1] == LowerHeaders[1];
    assert RequiredColumns[2] == LowerHeaders[2] && RequiredColumns[3] == LowerHeaders[3];
  }

  /** A header of six names where name `e` fills field `e` of `FieldOrder` and the last name fills nothing. */
  predicate ExportHeader(header: seq<string>)
  {
    && |header| == 6
    && (forall e :: 0 <= e < 5 ==> ColumnField(header[e]) == Some(FieldOrder[e]))
    && ColumnField(header[5]) == None
  }

  /** The normalised export headers fill the fields in order. */
  lemma ColumnsFillInOrder()
    ensures ExportHeader(LowerHeaders)
  {
    assert FieldOrder == [ReferenceText, Context, TextA, TextB, Notes];
    assert ColumnField("reference_text") == Some(ReferenceText);
    assert ColumnField("context") == Some(Context);
    assert ColumnField("text_a") == Some(TextA);
    assert ColumnField("text_b") == Some(TextB);
    assert ColumnField("notes") == Some(Notes);
    assert ColumnField("timestamp") == None;
  }

  // ---------------------------------------------------------------------------
  // The data rows

  /** A value the trip keeps: it breaks no line, and neither trimming nor quote stripping changes it. */
  predicate Keeps(v: string)
  {
    '\n' !in v && TrimStr(v) == v && StripQuote(v) == v
  }

  /** A record whose six exported values survive the trip, and which has a text to compare. */
  predicate Survives(record: ComparisonRecord)
  {
    && (forall i :: 0 <= i < 6 ==> Keeps(ExportValues(record)[i]))
    && (record.textA != "" || record.textB != "")
  }

  lemma EscapeValueAvoids(v: string, c: char)
    requires c != '"' && c !in v
    ensures c !in EscapeValue(v)
  {
    DoubleQuotesAvoids(v, c);
  }

  /** Two or more parts without a line break, joined by a visible separator, make one non-blank line. */
  lemma JoinedLine(parts: seq<string>, sep: char)
    requires |parts| >= 2 && sep != '\n' && !IsSpace(sep)
    requires forall i :: 0 <= i < |parts| ==> '\n' !in parts[i]
    ensures '\n' !in Join(parts, sep) && NonBlank(Join(parts, sep))
  {
    JoinAvoids(parts, sep, '\n');
    JoinHasSeparator(parts, sep);
    NonBlankAt(Join(parts, sep));
  }

  /** An exported row of a surviving record is one non-blank line. */
  lemma RowLine(record: ComparisonRecord)
    requires Survives(record)
    ensures '\n' !in ExportRow(record) && NonBlank(ExportRow(record))
  {
    var vs := ExportValues(record);
    var es := EscapeValues(vs);
    forall i | 0 <= i < 6 ensures '\n' !in es[i] {
      EscapeValueAvoids(vs[i], '\n');
    }
    JoinedLine(es, ',');
  }

  /** An exported row of a surviving record reads back as the record's six values. */
  lemma RowValues(record: ComparisonRecord)
    requires Survives(record)
    ensures Fields(ExportRow(record), ',') == ExportValues(record)
  {
    var vs := ExportValues(record);
    ExportRowReadsBack(record);
    forall i | 0 <= i < 6 ensures FinishAll(vs)[i] == vs[i] {
    }
  }

  /** Under the export's header, column `e` of six values fills field `e` of `FieldOrder`. */
  lemma ColumnFills(header: seq<string>, values: seq<string>, stamp: Stamp, e: nat)
    requires ExportHeader(header) && |values| == 6 && e < 5
    ensures Get(Assign(FreshRecord(stamp), ColumnAssignments(header, values)), FieldOrder[e]) == Some(values[e])
  {
    RowRecordFields(header, values, stamp, FieldOrder[e]);
    assert FieldOrder == [ReferenceText, Context, TextA, TextB, Notes];
    assert forall j :: e < j < 6 ==> ColumnField(header[j]) != Some(FieldOrder[e]);
  }

  /** Under the export's header, the values of a surviving record fill a fresh record with its texts and notes. */
  lemma {:induction false} ValuesFillRecord(record: ComparisonRecord, header: seq<string>, stamp: Stamp)
    requires ExportHeader(header)
    ensures Assign(FreshRecord(stamp), ColumnAssignments(header, ExportValues(record))) == Reimported(record, stamp)
  {
    var values := ExportValues(record);
    var steps := ColumnAssignments(header, values);
    var read := Assign(FreshRecord(stamp), steps);
    assert FieldOrder == [ReferenceText, Context, TextA, TextB, Notes];
    ColumnFills(header, values, stamp, 0);
    ColumnFills(header, values, stamp, 1);
    ColumnFills(header, values, stamp, 2);
    ColumnFills(header, values, stamp, 3);
    ColumnFills(header, values, stamp, 4);
    LastAssignmentWins(FreshRecord(stamp), steps, Notes);
  }

  /** A line whose values are those of an export of a record with a text is accepted, under the export's header, as `record` reimported. */
  lemma RowAccepted(line: string, record: ComparisonRecord, header: seq<string>, row: nat, stamp: Stamp)
    requires Fields(line, ',') == ExportValues(record) && ExportHeader(header)
    requires record.textA != "" || record.textB != ""
    ensures ParseRow(line, header, row, stamp) == Accepted(Reimported(record, stamp))
  {
    ValuesFillRecord(record, header, stamp);
  }

  /** Line `i + 1` is the exported row of record `i`, which survives the trip. */
  predicate RowsOfExport(lines: seq<string>, records: seq<ComparisonRecord>)
  {
    && |lines| == |records| + 1
    && forall i :: 0 <= i < |records| ==> lines[i + 1] == ExportRow(records[i]) && Survives(records[i])
  }



  /** Each data line of an export reads back as the six values of its record. */
  lemma LinesRead(lines: seq<string>, records: seq<ComparisonRecord>)
    requires RowsOfExport(lines, records)
    ensures forall k :: 0 <= k < |records| ==> Fields(lines[k + 1], ',') == ExportValues(records[k])
  {
    forall k | 0 <= k < |records| ensures Fields(lines[k + 1], ',') == ExportValues(records[k]) {
      RowValues(records[k]);
    }
  }

  /** Data lines that read back as the values of `records` are accepted, the first `n - 1` of them, as those records reimported. */
  lemma {:induction false} RowsAccepted(lines: seq<string>, records: seq<ComparisonRecord>, header: seq<string>,
                                        stamp: nat -> Stamp, n: nat)
    requires |lines| == |records| + 1 && 1 <= n <= |lines| && ExportHeader(header)
    requires forall k :: 0 <= k < |records| ==> Fields(lines[k + 1], ',') == ExportValues(records[k])
    requires forall k :: 0 <= k < |records| ==> records[k].textA != "" || records[k].textB != ""
    ensures forall k :: 0 <= k < n - 1 ==>
      RowOutcomes(lines, header, stamp, n)[k] == Accepted(ReimportedAll(records, stamp)[k])
  {
    if n > 1 {
      RowsAccepted(lines, records, header, stamp, n - 1);
      var outcome := ParseRow(lines[n - 1], header, n, stamp(n - 1));
      RowAccepted(lines[n - 1], records[n - 2], header, n, stamp(n - 1));
      AcceptedSnoc(RowOutcomes(lines, header, stamp, n - 1), outcome, ReimportedAll(records, stamp), n - 2);
    }
  }

  /** The data lines of an export, read under the export's header, are the records reimported and no error. */
  lemma {:induction false} RowsParse(lines: seq<string>, records: seq<ComparisonRecord>, header: seq<string>,
                                     stamp: nat -> Stamp)
    requires RowsOfExport(lines, records) && ExportHeader(header)
    ensures DataRows(lines, header, stamp, |lines|) == (ReimportedAll(records, stamp), [])
  {
    LinesRead(lines, records);
    RowsAccepted(lines, records, header, stamp, |lines|);
    TalliedAccepted(RowOutcomes(lines, header, stamp, |lines|), ReimportedAll(records, stamp));
  }

  /**
   * Non-blank single lines, the first one a header row normalised to names
   * that include the required columns, whose data lines give `rows` and no
   * error, parse as valid with those records.
   */
  lemma {:induction false} LinesParse(lines: seq<string>, header: seq<string>, rows: seq<ComparisonRecord>,
                                      stamp: nat -> Stamp)
    requires |lines| >= 2
    requires forall i :: 0 <= i < |lines| ==> '\n' !in lines[i] && NonBlank(lines[i])
    requires HeaderNames(lines[0]) == header && Missing(RequiredColumns, header) == []
    requires DataRows(lines, header, stamp, |lines|) == (rows, [])
    ensures ParseCsv(Join(lines, '\n'), stamp) == ImportValidation(true, [], rows)
  {
    SplitJoin(lines, '\n');
    NonBlankLinesKeepsAll(lines);
    assert ContentLines(Join(lines, '\n')) == lines;
  }

  /** A single non-blank first line followed by the rows of surviving records: every line is single and non-blank. */
  lemma LinesSingle(lines: seq<string>, records: seq<ComparisonRecord>)
    requires RowsOfExport(lines, records)
    requires '\n' !in lines[0] && NonBlank(lines[0])
    ensures forall i :: 0 <= i < |lines| ==> '\n' !in lines[i] && NonBlank(lines[i])
  {
    forall i | 1 <= i < |lines| ensures '\n' !in lines[i] && NonBlank(lines[i]) {
      assert lines[i] == ExportRow(records[i - 1]) && Survives(records[i - 1]);
      RowLine(records[i - 1]);
    }
  }

  /**
   * A single non-blank header row that normalises to the export's names,
   * followed by the rows of one or more surviving records, parses as those
   * records reimported.
   */
  lemma {:induction false} RowsThenParse(headerRow: string, records: seq<ComparisonRecord>, stamp: nat -> Stamp)
    requires 1 <= |records|
    requires forall i :: 0 <= i < |records| ==> Survives(records[i])
    requires '\n' !in headerRow && NonBlank(headerRow) && HeaderNames(headerRow) == LowerHeaders
    ensures ParseCsv(Join([headerRow] + ExportRows(records), '\n'), stamp)
      == ImportValidation(true, [], ReimportedAll(records, stamp))
  {
    var lines := [headerRow] + ExportRows(records);
    assert RowsOfExport(lines, records);
    LinesSingle(lines, records);
    ColumnsFillInOrder();
    NothingMissing();
    RowsParse(lines, records, LowerHeaders, stamp);
    LinesParse(lines, LowerHeaders, ReimportedAll(records, stamp), stamp);
  }

  /**
   * Exporting one or more surviving records and parsing the result is valid,
   * reports no error, and gives back every record, in order, with its texts
   * and notes and the identity generated for its line.
   */
  lemma {:induction false} ExportThenParse(records: seq<ComparisonRecord>, stamp: nat -> Stamp)
    requires 1 <= |records|
    requires forall i :: 0 <= i < |records| ==> Survives(records[i])
    ensures ParseCsv(ExportCsv(records), stamp) == ImportValidation(true, [], ReimportedAll(records, stamp))
  {
    HeaderRowLine();
    HeaderRowNames();
    RowsThenParse(Join(Headers, ','), records, stamp);
  }

  /** An export of no records is the header row alone, which the parser rejects as too short. */
  lemma {:induction false} EmptyExportRejected(stamp: nat -> Stamp)
    ensures ParseCsv(ExportCsv([]), stamp) == ImportValidation(false, [TooFewLines], [])
  {
    var row := Join(Headers, ',');
    HeaderRowLine();
    assert ExportCsv([]) == row;
    assert Split(row, '\n') == [row];
    NonBlankLinesKeepsAll([row]);
  }
}
