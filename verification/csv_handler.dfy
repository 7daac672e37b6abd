/**
 * The fixed-header CSV handler: a comma-only tokenizer, a header row that must
 * name four required columns (with a few accepted synonyms for each field), a
 * row-by-row validation, and its own exporter and value escaper.
 */
module CsvHandler {
  import opened Wrappers
  import opened JsString
  import opened Records
  import opened CsvLine

  /** The reasons `parseCSV` reports; the message wording is not modelled. */
  datatype ImportError =
    | TooFewLines
    | MissingColumns(columns: seq<string>)
    | ColumnCountMismatch(row: nat, expected: nat, got: nat)
    | NoTextVersion(row: nat)

  datatype ImportValidation = ImportValidation(valid: bool, errors: seq<ImportError>, records: seq<ComparisonRecord>)

  // ---------------------------------------------------------------------------
  // Tokenizing a line

  /**
   * The handler's own `parseCSVLine`: character for character the same loop
   * as the smart importer's tokenizer, with the separator fixed to a comma,
   * so it runs that tokenizer.
   */
  method ParseCommaLine(line: string) returns (fields: seq<string>)
    ensures fields == Fields(line, ',')
    ensures |fields| == 1 + SepsOutside(line, ',', false)
  {
    fields := ParseCsvLine(line, ',');
    FieldCount(line, ',');
  }

  // ---------------------------------------------------------------------------
  // The header row

  /** One header cell as the handler compares it: trimmed, lower-cased, every quote removed. */
  function HeaderName(cell: string): (r: string)
    ensures '"' !in r
    ensures |r| <= |cell|
  {
    RemoveQuotes(AsciiLowerStr(TrimStr(cell)))
  }

  /** The header row split at every comma (quotes are not honoured here) and normalised. */
  function HeaderNames(line: string): (r: seq<string>)
    ensures |r| == Count(line, ',') + 1
    ensures forall k :: 0 <= k < |r| ==> r[k] == HeaderName(Split(line, ',')[k])
  {
    var cells := Split(line, ',');
    seq(|cells|, k requires 0 <= k < |cells| => HeaderName(cells[k]))
  }

  /** The columns a header row must name. */
  const RequiredColumns: seq<string> := ["reference_text", "context", "text_a", "text_b"]

  /** `required.filter(col => !header.includes(col))`. */
  function Missing(required: seq<string>, header: seq<string>): (r: seq<string>)
    ensures forall x :: x in r <==> x in required && x !in header
    ensures |r| <= |required|
    ensures r == [] <==> forall i :: 0 <= i < |required| ==> required[i] in header
  {
    if required == [] then []
    else (if required[0] in header then [] else [required[0]]) + Missing(required[1..], header)
  }

  /** The `switch` on a column name: the field the column fills, if any. */
  function ColumnField(name: string): Option<Field>
  {
    if name == "reference_text" || name == "source_text" || name == "source" then Some(ReferenceText)
    else if name == "context" || name == "usage_context" then Some(Context)
    else if name == "text_a" || name == "original" || name == "candidate_1" then Some(TextA)
    else if name == "text_b" || name == "revised" || name == "candidate_2" then Some(TextB)
    else if name == "notes" || name == "comments" then Some(Notes)
    else None
  }

  /** The names the switch accepts for each field; every other name fills nothing. */
  lemma ColumnNames(name: string)
    ensures ColumnField(name) == Some(ReferenceText) <==> name in ["reference_text", "source_text", "source"]
    ensures ColumnField(name) == Some(Context) <==> name in ["context", "usage_context"]
    ensures ColumnField(name) == Some(TextA) <==> name in ["text_a", "original", "candidate_1"]
    ensures ColumnField(name) == Some(TextB) <==> name in ["text_b", "revised", "candidate_2"]
    ensures ColumnField(name) == Some(Notes) <==> name in ["notes", "comments"]
    ensures ColumnField(name) == None <==>
      name !in ["reference_text", "source_text", "source", "context", "usage_context", "text_a", "original",
                "candidate_1", "text_b", "revised", "candidate_2", "notes", "comments"]
  {
  }

  /** The required columns fill reference text, context, text A and text B, in that order. */
  lemma RequiredColumnsFill()
    ensures |RequiredColumns| == 4
    ensures ColumnField(RequiredColumns[0]) == Some(ReferenceText)
    ensures ColumnField(RequiredColumns[1]) == Some(Context)
    ensures ColumnField(RequiredColumns[2]) == Some(TextA)
    ensures ColumnField(RequiredColumns[3]) == Some(TextB)
  {
  }

  // ---------------------------------------------------------------------------
  // The data rows

  /** What each column does to a record: set the field its name selects to the column's value. */
  function ColumnAssignments(header: seq<string>, values: seq<string>): (r: seq<Assignment>)
    requires |values| == |header|
    ensures |r| == |header|
  {
    seq(|header|, k requires 0 <= k < |header| => (ColumnField(header[k]), values[k]))
  }

  /** One data line, numbered `row`: the wrong number of values, no text, or a record. */
  function ParseRow(line: string, header: seq<string>, row: nat, stamp: Stamp): (r: RowOutcome<ImportError>)
    ensures r.Accepted? ==> r.record.textA != "" || r.record.textB != ""
    ensures r.Rejected? ==> r.error.ColumnCountMismatch? || r.error.NoTextVersion?
  {
    var values := Fields(line, ',');
    if |values| != |header| then Rejected(ColumnCountMismatch(row, |header|, |values|))
    else
      var record := Assign(FreshRecord(stamp), ColumnAssignments(header, values));
      if record.textA == "" && record.textB == "" then Rejected(NoTextVersion(row))
      else Accepted(record)
  }

  /** The outcomes of the data lines `lines[1..n]`, in order; line `i` is row `i + 1`. */
  function RowOutcomes(lines: seq<string>, header: seq<string>, stamp: nat -> Stamp, n: nat): (r: seq<RowOutcome<ImportError>>)
    requires 1 <= n <= |lines|
    ensures |r| == n - 1
  {
    if n == 1 then []
    else RowOutcomes(lines, header, stamp, n - 1) + [ParseRow(lines[n - 1], header, n, stamp(n - 1))]
  }

  /** Records and errors after the data lines `lines[1..n]`. */
  function DataRows(lines: seq<string>, header: seq<string>, stamp: nat -> Stamp, n: nat)
    : (r: (seq<ComparisonRecord>, seq<ImportError>))
    requires 1 <= n <= |lines|
  {
    Tallied(RowOutcomes(lines, header, stamp, n))
  }

  /** `count` rows tallied: one record or one error each, every record with a text, every error a row error. */
  predicate Accounted(r: (seq<ComparisonRecord>, seq<ImportError>), count: nat)
  {
    && |r.0| + |r.1| == count
    && (forall i :: 0 <= i < |r.0| ==> r.0[i].textA != "" || r.0[i].textB != "")
    && (forall i :: 0 <= i < |r.1| ==> r.1[i].ColumnCountMismatch? || r.1[i].NoTextVersion?)
  }

  /** Tallying the outcome of one more row keeps the rows accounted for. */
  lemma TallyAccounts(acc: (seq<ComparisonRecord>, seq<ImportError>), outcome: RowOutcome<ImportError>, count: nat)
    requires Accounted(acc, count)
    requires outcome.Accepted? ==> outcome.record.textA != "" || outcome.record.textB != ""
    requires outcome.Rejected? ==> outcome.error.ColumnCountMismatch? || outcome.error.NoTextVersion?
    ensures Accounted(Tally(acc, outcome), count + 1)
  {
    var r := Tally(acc, outcome);
    if outcome.Accepted? {
      assert forall i :: 0 <= i < |acc.0| ==> r.0[i] == acc.0[i];
    } else {
      assert forall i :: 0 <= i < |acc.1| ==> r.1[i] == acc.1[i];
    }
  }

  /**
   * Every data line yields exactly one record or one error, every record has
   * text A or text B, and every error is a row error.
   */
  lemma {:induction false} EveryRowAccounted(lines: seq<string>, header: seq<string>, stamp: nat -> Stamp, n: nat)
    requires 1 <= n <= |lines|
    ensures Accounted(DataRows(lines, header, stamp, n), n - 1)
  {
    if n > 1 {
      EveryRowAccounted(lines, header, stamp, n - 1);
      var outcome := ParseRow(lines[n - 1], header, n, stamp(n - 1));
      TalliedSnoc(RowOutcomes(lines, header, stamp, n - 1), outcome);
      TallyAccounts(DataRows(lines, header, stamp, n - 1), outcome, n - 2);
    }
  }

  /** `csvContent.split('\n').filter(line => line.trim())`. */
  function ContentLines(content: string): seq<string>
  {
    NonBlankLines(Split(content, '\n'))
  }

  /**
   * `parseCSV`. `stamp(i)` stands for the id and time generated for the
   * record built from line `i`.
   */
  function ParseCsv(content: string, stamp: nat -> Stamp): (r: ImportValidation)
    ensures r.valid <==> r.errors == []
    ensures forall i :: 0 <= i < |r.records| ==> r.records[i].textA != "" || r.records[i].textB != ""
  {
    var lines := ContentLines(content);
    if |lines| < 2 then ImportValidation(false, [TooFewLines], [])
    else
      var header := HeaderNames(lines[0]);
      var missing := Missing(RequiredColumns, header);
      if missing != [] then ImportValidation(false, [MissingColumns(missing)], [])
      else
        var rows := DataRows(lines, header, stamp, |lines|);
        EveryRowAccounted(lines, header, stamp, |lines|);
        ImportValidation(rows.1 == [], rows.1, rows.0)
  }

  /** `parseCSV`, with its row loop. */
  method ParseCsvContent(content: string, stamp: nat -> Stamp) returns (result: ImportValidation)
    ensures result == ParseCsv(content, stamp)
  {
    var lines := ContentLines(content);
    if |lines| < 2 {
      return ImportValidation(false, [TooFewLines], []);
    }
    var header := HeaderNames(lines[0]);
    var missing := Missing(RequiredColumns, header);
    if |missing| > 0 {
      return ImportValidation(false, [MissingColumns(missing)], []);
    }
    var records, errors := ParseDataRows(lines, header, stamp);
    result := ImportValidation(|errors| == 0, errors, records);
  }

  /** The data-row loop of `parseCSV`: line `i` is reported as row `i + 1`. */
  method ParseDataRows(lines: seq<string>, header: seq<string>, stamp: nat -> Stamp)
    returns (records: seq<ComparisonRecord>, errors: seq<ImportError>)
    requires 1 <= |lines|
    ensures (records, errors) == DataRows(lines, header, stamp, |lines|)
  {
    records, errors := [], [];
    ghost var outcomes: seq<RowOutcome<ImportError>> := [];
    var i := 1;
    while i < |lines|
      invariant 1 <= i <= |lines|
      invariant outcomes == RowOutcomes(lines, header, stamp, i)
      invariant (records, errors) == Tallied(outcomes)
    {
      var outcome := ParseDataLine(lines[i], header, i + 1, stamp(i));
      match outcome {
        case Accepted(record) => records := records + [record];
        case Rejected(error) => errors := errors + [error];
      }
      TalliedSnoc(outcomes, outcome);
      outcomes := outcomes + [outcome];
      i := i + 1;
    }
  }

  /** The body of the row loop: the line's values, then either an error or a record. */
  method ParseDataLine(line: string, header: seq<string>, row: nat, stamp: Stamp) returns (outcome: RowOutcome<ImportError>)
    ensures outcome == ParseRow(line, header, row, stamp)
  {
    var values := ParseCommaLine(line);
    if |values| != |header| {
      return Rejected(ColumnCountMismatch(row, |header|, |values|));
    }
    var record := ApplyColumns(header, values, stamp);
    if record.textA == "" && record.textB == "" {
      return Rejected(NoTextVersion(row));
    }
    outcome := Accepted(record);
  }

  /** `header.forEach`: each column whose name the switch knows writes its value to its field. */
  method ApplyColumns(header: seq<string>, values: seq<string>, stamp: Stamp) returns (record: ComparisonRecord)
    requires |values| == |header|
    ensures record == Assign(FreshRecord(stamp), ColumnAssignments(header, values))
  {
    ghost var steps := ColumnAssignments(header, values);
    record := FreshRecord(stamp);
    var index := 0;
    while index < |header|
      invariant 0 <= index <= |header|
      invariant record == Assign(FreshRecord(stamp), steps[..index])
    {
      var field := ColumnField(header[index]);
      assert steps[..index + 1][..index] == steps[..index];
      if field.Some? {
        record := SetField(record, field.value, values[index]);
      }
      index := index + 1;
    }
    assert steps[..|header|] == steps;
  }

  /**
   * Fewer than two non-blank lines, or a required column missing from the
   * header, is an error with no records; otherwise every data line is
   * accounted for, and a valid import yields a record for every data line.
   */
  lemma ImportOutcome(content: string, stamp: nat -> Stamp)
    ensures var r := ParseCsv(content, stamp);
      var lines := ContentLines(content);
      && (|lines| < 2 ==> r == ImportValidation(false, [TooFewLines], []))
      && (|lines| >= 2 && Missing(RequiredColumns, HeaderNames(lines[0])) != [] ==>
            r == ImportValidation(false, [MissingColumns(Missing(RequiredColumns, HeaderNames(lines[0])))], []))
      && (|lines| >= 2 && Missing(RequiredColumns, HeaderNames(lines[0])) == [] ==>
            |r.records| + |r.errors| == |lines| - 1)
      && (r.valid ==> |r.records| == |lines| - 1 >= 1)
  {
    var lines := ContentLines(content);
    if |lines| >= 2 {
      EveryRowAccounted(lines, HeaderNames(lines[0]), stamp, |lines|);
    }
  }

  /**
   * Columns are applied left to right, so when several columns select the same
   * field (a name repeated, or two synonyms) the rightmost one wins; a field no
   * column selects keeps its starting value.
   */
  lemma RowRecordFields(header: seq<string>, values: seq<string>, stamp: Stamp, f: Field)
    requires |values| == |header|
    ensures var record := Assign(FreshRecord(stamp), ColumnAssignments(header, values));
      && (forall k :: (0 <= k < |header| && ColumnField(header[k]) == Some(f)
            && forall j :: k < j < |header| ==> ColumnField(header[j]) != Some(f)) ==>
            Get(record, f) == Some(values[k]))
      && ((forall k :: 0 <= k < |header| ==> ColumnField(header[k]) != Some(f)) ==>
            Get(record, f) == Get(FreshRecord(stamp), f))
      && record.id == Some(stamp.id) && record.timestamp == Some(stamp.time)
  {
    var steps := ColumnAssignments(header, values);
    LastAssignmentWins(FreshRecord(stamp), steps, f);
    var last := LastFor(steps, f);
    forall k | 0 <= k < |header| && ColumnField(header[k]) == Some(f)
        && (forall j :: k < j < |header| ==> ColumnField(header[j]) != Some(f))
      ensures last == k
    {
      assert steps[k].0 == Some(f);
    }
  }

  // ---------------------------------------------------------------------------
  // Export

  /** The characters that make this handler's `escapeCSVValue` quote a value (a carriage return does not). */
  predicate MustQuote(v: string)
  {
    ',' in v || '"' in v || '\n' in v
  }

  /** The handler's `escapeCSVValue`. */
  function EscapeValue(v: string): (r: string)
    ensures v == "" ==> r == ""
    ensures r == v <==> !MustQuote(v)
  {
    if v == "" then ""
    else if MustQuote(v) then "\"" + DoubleQuotes(v) + "\""
    else v
  }

  /** Every escaped value is a written form the comma tokenizer reads back. */
  lemma EscapeValueIsWritten(v: string)
    ensures WrittenForm(EscapeValue(v), v, ',')
  {
  }

  /**
   * The two escapers differ on exactly the values that hold a carriage return
   * and nothing else needing quotes: this one leaves them bare.
   */
  lemma EscapersAgree(v: string)
    ensures EscapeValue(v) == Escape(v) <==> !('\r' in v && !MustQuote(v))
  {
    if '\r' in v && !MustQuote(v) {
      assert v != "" && NeedsQuoting(v);
      assert |Escape(v)| > |v|;
    }
  }

  function EscapeValues(vs: seq<string>): (r: seq<string>)
    ensures |r| == |vs|
  {
    seq(|vs|, i requires 0 <= i < |vs| => EscapeValue(vs[i]))
  }

  /** The fixed export headers. */
  const Headers: seq<string> := ["Reference_Text", "Context", "Text_A", "Text_B", "Notes", "Timestamp"]

  function ExportRow(record: ComparisonRecord): string
  {
    Join(EscapeValues(ExportValues(record)), ',')
  }

  /** One exported row per record, in order. */
  function ExportRows(records: seq<ComparisonRecord>): (r: seq<string>)
    ensures |r| == |records|
    ensures forall i :: 0 <= i < |records| ==> r[i] == ExportRow(records[i])
  {
    if records == [] then []
    else ExportRows(records[..|records| - 1]) + [ExportRow(records[|records| - 1])]
  }

  /** The rows of one record more. */
  lemma ExportRowsSnoc(records: seq<ComparisonRecord>, i: nat)
    requires i < |records|
    ensures ExportRows(records[..i + 1]) == ExportRows(records[..i]) + [ExportRow(records[i])]
  {
    assert records[..i + 1][..i] == records[..i];
  }

  /** `exportToCSV`: the header row, then one row per record, joined by newlines. */
  function ExportCsv(records: seq<ComparisonRecord>): string
  {
    Join([Join(Headers, ',')] + ExportRows(records), '\n')
  }

  /** Six values, each `f` of the matching value of `vs`, listed out. */
  lemma EscapedSix(vs: seq<string>)
    requires |vs| == 6
    ensures EscapeValues(vs) == [EscapeValue(vs[0]), EscapeValue(vs[1]), EscapeValue(vs[2]), EscapeValue(vs[3]),
      EscapeValue(vs[4]), EscapeValue(vs[5])]
  {
    SixOf(EscapeValues(vs), vs, EscapeValue);
  }

  /** `exportToCSV`, with its row loop. */
  method ExportToCsv(records: seq<ComparisonRecord>) returns (csv: string)
    ensures csv == ExportCsv(records)
  {
    var csvRows := [Join(Headers, ',')];
    var i := 0;
    while i < |records|
      invariant 0 <= i <= |records|
      invariant csvRows == [Join(Headers, ',')] + ExportRows(records[..i])
    {
      var record := records[i];
      var row := [
        EscapeValue(record.referenceText),
        EscapeValue(record.context),
        EscapeValue(record.textA),
        EscapeValue(record.textB),
        EscapeValue(record.notes.GetOr("")),
        EscapeValue(record.timestamp.GetOr(""))
      ];
      EscapedSix(ExportValues(record));
      ExportRowsSnoc(records, i);
      csvRows := csvRows + [Join(row, ',')];
      i := i + 1;
    }
    assert records[..i] == records;
    csv := Join(csvRows, '\n');
  }

  /** Every exported row is read back by the tokenizer as the record's six values, trimmed and quote-stripped. */
  lemma {:induction false} ExportRowReadsBack(record: ComparisonRecord)
    ensures Fields(ExportRow(record), ',') == FinishAll(ExportValues(record))
  {
    var vs := ExportValues(record);
    forall i | 0 <= i < |vs| ensures WrittenForm(EscapeValues(vs)[i], vs[i], ',') {
      EscapeValueIsWritten(vs[i]);
    }
    FieldsOfJoined(EscapeValues(vs), vs, ',');
  }
}
