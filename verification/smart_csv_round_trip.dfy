/**
 * Exporting records in English and importing the result gives the records'
 * texts back, provided the values survive the trip: no line breaks, none of
 * the other candidate separators, no surrounding whitespace or quotes.
 */
module SmartCsvRoundTrip {
  import opened Wrappers
  import opened JsString
  import opened Records
  import opened CsvLine
  import opened FuzzyMatch
  import opened HeaderMapping
  import opened SmartCsv

  // ---------------------------------------------------------------------------
  // Characters that joining and escaping do not introduce

  lemma {:induction false} JoinAvoids(parts: seq<string>, sep: char, c: char)
    requires c != sep
    requires forall i :: 0 <= i < |parts| ==> c !in parts[i]
    ensures c !in Join(parts, sep)
  {
    if |parts| > 1 {
      JoinAvoids(parts[1..], sep, c);
    }
  }

  lemma {:induction false} DoubleQuotesAvoids(v: string, c: char)
    requires c != '"' && c !in v
    ensures c !in DoubleQuotes(v)
  {
    if v != [] {
      DoubleQuotesAvoids(v[1..], c);
    }
  }

  lemma EscapeAvoids(v: string, c: char)
    requires c != '"' && c !in v
    ensures c !in Escape(v)
  {
    DoubleQuotesAvoids(v, c);
  }

  lemma EscapedRowAvoids(vs: seq<string>, c: char)
    requires c != '"' && c != ','
    requires forall i :: 0 <= i < |vs| ==> c !in vs[i]
    ensures c !in Join(EscapeAll(vs), ',')
  {
    forall i | 0 <= i < |vs| ensures c !in EscapeAll(vs)[i] {
      EscapeAvoids(vs[i], c);
    }
    JoinAvoids(EscapeAll(vs), ',', c);
  }

  /** A join of two or more parts holds the separator right after the first part. */
  lemma JoinHasSeparator(parts: seq<string>, sep: char)
    requires |parts| >= 2
    ensures |parts[0]| < |Join(parts, sep)| && Join(parts, sep)[|parts[0]|] == sep
  {
  }

  // ---------------------------------------------------------------------------
  // Values and records that survive the trip

  /**
   * A value the trip keeps: it breaks no line, holds none of the other
   * candidate separators, and neither trimming nor quote stripping changes it.
   */
  predicate Portable(v: string)
  {
    '\n' !in v && ';' !in v && '\t' !in v && '|' !in v && TrimStr(v) == v && StripQuote(v) == v
  }

  /** A record whose six exported values are portable, and which has a text to compare. */
  predicate Exportable(record: ComparisonRecord)
  {
    && (forall i :: 0 <= i < 6 ==> Portable(ExportValues(record)[i]))
    && (record.textA != "" || record.textB != "")
  }

  /** An exported row of an exportable record reads back, with the comma, as its six values. */
  lemma RowReadsBack(record: ComparisonRecord)
    requires Exportable(record)
    ensures Fields(ExportRow(record), ',') == ExportValues(record)
  {
    var vs := ExportValues(record);
    EscapedRowRoundTrip(vs);
    forall i | 0 <= i < 6 ensures FinishAll(vs)[i] == vs[i] {
    }
  }

  /** Two or more values with no line break and no other candidate separator escape and join into a non-blank line free of them. */
  lemma EscapedRowShape(vs: seq<string>)
    requires |vs| >= 2
    requires forall i :: 0 <= i < |vs| ==> '\n' !in vs[i] && ';' !in vs[i] && '\t' !in vs[i] && '|' !in vs[i]
    ensures '\n' !in Join(EscapeAll(vs), ',') && ';' !in Join(EscapeAll(vs), ',')
    ensures '\t' !in Join(EscapeAll(vs), ',') && '|' !in Join(EscapeAll(vs), ',')
    ensures NonBlank(Join(EscapeAll(vs), ','))
  {
    EscapedRowAvoids(vs, '\n');
    EscapedRowAvoids(vs, ';');
    EscapedRowAvoids(vs, '\t');
    EscapedRowAvoids(vs, '|');
    JoinHasSeparator(EscapeAll(vs), ',');
    NonBlankAt(Join(EscapeAll(vs), ','));
  }

  /** An exported row of an exportable record holds no line break and no other candidate separator, and is not blank. */
  lemma RowShape(record: ComparisonRecord)
    requires Exportable(record)
    ensures '\n' !in ExportRow(record) && ';' !in ExportRow(record)
    ensures '\t' !in ExportRow(record) && '|' !in ExportRow(record)
    ensures NonBlank(ExportRow(record))
  {
    var vs := ExportValues(record);
    forall i | 0 <= i < 6 ensures '\n' !in vs[i] && ';' !in vs[i] && '\t' !in vs[i] && '|' !in vs[i] {
      assert Portable(vs[i]);
    }
    EscapedRowShape(vs);
  }

  // ---------------------------------------------------------------------------
  // The English header row

  /** The English header row. */
  function HeaderRow(): string
  {
    Join(EnglishHeaders, ',')
  }

  /** A letter or an underscore: the only characters the English headers use. */
  predicate IsWordChar(c: char)
  {
    'a' <= c <= 'z' || 'A' <= c <= 'Z' || c == '_'
  }

  predicate WordChars(s: string)
  {
    forall k :: 0 <= k < |s| ==> IsWordChar(s[k])
  }

  /** Each English header is a non-empty run of letters and underscores. */
  lemma HeadersAreWords()
    ensures forall i :: 0 <= i < 6 ==> EnglishHeaders[i] != [] && WordChars(EnglishHeaders[i])
  {
    assert WordChars("Reference_Text");
    assert WordChars("Context");
    assert WordChars("Text_A");
    assert WordChars("Text_B");
    assert WordChars("Notes");
    assert WordChars("Timestamp");
  }

  lemma HeaderAvoids(c: char)
    requires c == '\n' || c == ';' || c == '\t' || c == '|'
    ensures c !in HeaderRow()
  {
    HeadersAreWords();
    forall i | 0 <= i < 6 ensures c !in EnglishHeaders[i] {
      var h := EnglishHeaders[i];
      forall k | 0 <= k < |h| ensures h[k] != c {
        assert IsWordChar(h[k]);
      }
    }
    JoinAvoids(EnglishHeaders, ',', c);
  }

  /** The English header row is a comma line. */
  lemma HeaderRowShape()
    ensures CommaLine(HeaderRow())
  {
    JoinHasSeparator(EnglishHeaders, ',');
    NonBlankAt(HeaderRow());
    HeaderAvoids('\n');
    HeaderAvoids(';');
    HeaderAvoids('\t');
    HeaderAvoids('|');
    HeaderRowReadsBack();
  }

  /** A header with no quote or comma and non-blank ends is its own written form and reads back unchanged. */
  lemma PlainHeader(h: string)
    requires '"' !in h && ',' !in h && h != []
    requires !IsSpace(h[0]) && !IsSpace(h[|h| - 1])
    ensures WrittenForm(h, h, ',') && Finish(h) == h
  {
  }

  /** A non-empty run of letters and underscores is its own written form and reads back unchanged. */
  lemma WordIsPlain(h: string)
    requires h != [] && WordChars(h)
    ensures WrittenForm(h, h, ',') && Finish(h) == h
  {
    forall c | c in h
      ensures IsWordChar(c)
    {
      var k :| 0 <= k < |h| && h[k] == c;
    }
    assert IsWordChar(h[0]) && IsWordChar(h[|h| - 1]);
    PlainHeader(h);
  }

  /** A row of plain headers reads back as those headers. */
  lemma PlainRowReadsBack(hs: seq<string>)
    requires |hs| >= 1
    requires forall i :: 0 <= i < |hs| ==> WrittenForm(hs[i], hs[i], ',') && Finish(hs[i]) == hs[i]
    ensures Fields(Join(hs, ','), ',') == hs
  {
    FieldsOfJoined(hs, hs, ',');
    assert FinishAll(hs) == hs;
  }

  /** The header row reads back as the six English headers. */
  lemma HeaderRowReadsBack()
    ensures Fields(HeaderRow(), ',') == EnglishHeaders
  {
    HeadersAreWords();
    forall i | 0 <= i < 6 ensures WrittenForm(EnglishHeaders[i], EnglishHeaders[i], ',') && Finish(EnglishHeaders[i]) == EnglishHeaders[i] {
      WordIsPlain(EnglishHeaders[i]);
    }
    PlainRowReadsBack(EnglishHeaders);
  }

  lemma EnglishIsLocalized()
    ensures LocalizedHeaders("en") == EnglishHeaders
  {
  }

  // ---------------------------------------------------------------------------
  // Mapping the English headers

  /** The record fields in the order the English headers name them. */
  const FieldOrder: seq<Field> := [ReferenceText, Context, TextA, TextB, Notes]

  /** The fields named by the first `k` English headers. */
  function Claimed(k: nat): set<Field>
  {
    set i | 0 <= i < |FieldOrder| && i < k :: FieldOrder[i]
  }

  /**
   * A table laid out like the column patterns, for the header row `headers`:
   * its entries are the five fields in order, and entry `e` holds a pattern
   * that header `e` matches exactly.
   */
  ghost predicate Canonical(table: PatternTable, headers: seq<string>)
  {
    && |table| == 5 && |headers| == 6
    && (forall e :: 0 <= e < 5 ==> table[e].0 == FieldOrder[e])
    && (forall e :: 0 <= e < 5 ==> exists p :: 0 <= p < |table[e].1| && Similarity(headers[e], table[e].1[p]) == 1.0)
  }

  lemma ClaimedStep(k: nat)
    requires k < 5
    ensures Claimed(k + 1) == Claimed(k) + {FieldOrder[k]}
    ensures FieldOrder[k] !in Claimed(k)
  {
  }

  lemma ClaimedAll(f: Field)
    ensures f in Claimed(5)
  {
    assert FieldOrder[0] == ReferenceText && FieldOrder[1] == Context && FieldOrder[2] == TextA;
    assert FieldOrder[3] == TextB && FieldOrder[4] == Notes;
  }

  /** With the fields before it claimed, header `e` takes field `e` with full confidence. */
  lemma HeaderTakesItsField(table: PatternTable, headers: seq<string>, e: nat)
    requires Canonical(table, headers) && e < 5
    ensures MapHeader(headers[e], table, Claimed(e)) ==
      ColumnMapping(headers[e], FieldOrder[e], 1.0, Alternatives(table[e].1))
  {
    var h := headers[e];
    var m := MapHeader(h, table, Claimed(e));
    var p :| 0 <= p < |table[e].1| && Similarity(h, table[e].1[p]) == 1.0;
    ClaimedStep(e);
    MapHeaderIsGreedyFirstMax(h, table, Claimed(e));
    assert Similarity(h, table[e].1[p]) <= m.confidence;
    var e', p' :| ChosenAt(h, table, Claimed(e), m, e', p');
  }

  /** Once the five fields are claimed, the sixth header stays below the threshold. */
  lemma SixthUnmapped(table: PatternTable, headers: seq<string>)
    requires Canonical(table, headers)
    ensures MapHeader(headers[5], table, Claimed(5)).confidence <= Threshold
  {
    var h := headers[5];
    var m := MapHeader(h, table, Claimed(5));
    MapHeaderIsGreedyFirstMax(h, table, Claimed(5));
    if m.confidence > Threshold {
      var e', p' :| ChosenAt(h, table, Claimed(5), m, e', p');
      ClaimedAll(table[e'].0);
      assert false;
    }
  }

  /** The mappings `r` of the headers from `k` on: those before the sixth take their fields, the sixth is ignored. */
  predicate MappedFrom(r: seq<ColumnMapping>, k: nat)
  {
    && |r| == 6 - k
    && (forall i :: 0 <= i < |r| && k + i < 5 ==> r[i].mapped == FieldOrder[k + i] && r[i].confidence == 1.0)
    && (k <= 5 ==> r[5 - k].confidence <= Threshold)
  }

  lemma {:induction false} MapsStep(table: PatternTable, headers: seq<string>, k: nat)
    requires k < 5 && |headers| == 6 && k < |table|
    requires MapHeader(headers[k], table, Claimed(k)) == ColumnMapping(headers[k], FieldOrder[k], 1.0, Alternatives(table[k].1))
    requires MappedFrom(HeaderMappings(headers[k + 1..], table, Claimed(k + 1)), k + 1)
    ensures MappedFrom(HeaderMappings(headers[k..], table, Claimed(k)), k)
  {
    var m := MapHeader(headers[k], table, Claimed(k));
    MappingsStep(headers, k, table, Claimed(k));
    ClaimedStep(k);
    assert Claim(Claimed(k), m) == Claimed(k + 1);
    MappedCons(m, HeaderMappings(headers[k + 1..], table, Claimed(k + 1)), k);
  }

  /** Header `k` taking field `k` with full confidence, before the mappings from `k + 1` on, gives the mappings from `k` on. */
  lemma MappedCons(m: ColumnMapping, rest: seq<ColumnMapping>, k: nat)
    requires k < 5 && m.mapped == FieldOrder[k] && m.confidence == 1.0 && MappedFrom(rest, k + 1)
    ensures MappedFrom([m] + rest, k)
  {
    var r := [m] + rest;
    forall i | 1 <= i < |r| ensures r[i] == rest[i - 1] {
    }
  }

  lemma MapsLast(table: PatternTable, headers: seq<string>)
    requires Canonical(table, headers)
    ensures MappedFrom(HeaderMappings(headers[5..], table, Claimed(5)), 5)
  {
    MappingsStep(headers, 5, table, Claimed(5));
    SixthUnmapped(table, headers);
  }

  /** The mappings of the headers from `k` on, with the fields of the headers before `k` claimed. */
  lemma {:induction false} MapsFrom(table: PatternTable, headers: seq<string>, k: nat)
    requires Canonical(table, headers) && k <= 5
    ensures MappedFrom(HeaderMappings(headers[k..], table, Claimed(k)), k)
    decreases 5 - k
  {
    if k < 5 {
      MapsFrom(table, headers, k + 1);
      HeaderTakesItsField(table, headers, k);
      MapsStep(table, headers, k);
    } else {
      MapsLast(table, headers);
    }
  }

  /** The mapping of a header row like the English one: the first five headers take their fields in order, the sixth is ignored. */
  predicate EnglishMapping(mapping: seq<ColumnMapping>)
  {
    && |mapping| == 6
    && (forall e :: 0 <= e < 5 ==> mapping[e].mapped == FieldOrder[e] && mapping[e].confidence == 1.0)
    && mapping[5].confidence <= Threshold
  }

  lemma HeadersMapInOrder(table: PatternTable, headers: seq<string>)
    requires Canonical(table, headers)
    ensures EnglishMapping(HeaderMappings(headers, table, {}))
  {
    MapsFrom(table, headers, 0);
    assert headers[0..] == headers;
    assert Claimed(0) == {};
  }

  // ---------------------------------------------------------------------------
  // Detecting the comma

  /** When every line splits into `c` fields, each line adds `c`, plus 10 when `c` exceeds 1. */
  lemma {:induction false} UniformScore(lines: seq<string>, sep: char, c: nat, n: nat)
    requires 1 <= |lines| && n <= |lines|
    requires forall i :: 0 <= i < |lines| ==> |Fields(lines[i], sep)| == c
    ensures ScoreOf(lines, sep, n) == n * LineScore(c, c)
  {
    if n > 0 {
      UniformScore(lines, sep, c, n - 1);
    }
  }

  /** A single non-blank line that splits into six fields at commas and holds no other candidate separator. */
  predicate CommaLine(line: string)
  {
    && '\n' !in line && NonBlank(line) && |Fields(line, ',')| == 6
    && ';' !in line && '\t' !in line && '|' !in line
  }

  /** Lines that are all comma lines. */
  predicate CommaLines(lines: seq<string>)
  {
    forall i :: 0 <= i < |lines| ==> CommaLine(lines[i])
  }

  /** The sample lines score 16 each for the comma and 1 each for the other candidates, so the comma is detected. */
  lemma {:induction false} CommaOutscores(sample: seq<string>)
    requires 1 <= |sample| && CommaLines(sample)
    ensures Separators[FirstMax(Scores(sample), |Separators|)] == ','
  {
    var n := |sample|;
    var scores := Scores(sample);
    UniformScore(sample, ',', 6, n);
    forall t | 1 <= t < |Separators| ensures scores[t] == n {
      forall i | 0 <= i < n ensures |Fields(sample[i], Separators[t])| == 1 {
        SingleField(sample[i], Separators[t]);
      }
      UniformScore(sample, Separators[t], 1, n);
    }
    assert scores[0] == 16 * n;
    var best := FirstMax(scores, |Separators|);
    assert scores[0] <= scores[best];
  }

  /** Non-blank single lines joined with line breaks split back into those lines, and the first three are the sample. */
  lemma JoinedLines(lines: seq<string>)
    requires 1 <= |lines|
    requires forall i :: 0 <= i < |lines| ==> '\n' !in lines[i] && NonBlank(lines[i])
    ensures ContentLines(Join(lines, '\n')) == lines
    ensures SampleLines(Join(lines, '\n')) == if |lines| <= 3 then lines else lines[..3]
  {
    SplitJoin(lines, '\n');
    NonBlankLinesKeepsAll(lines);
    if |lines| > 3 {
      var prefix := lines[..3];
      forall i | 0 <= i < 3 ensures NonBlank(prefix[i]) {
        assert prefix[i] == lines[i];
      }
      NonBlankLinesKeepsAll(prefix);
    }
  }

  /** Content made of comma lines keeps all its lines and is read with the comma. */
  lemma CommaDetected(lines: seq<string>)
    requires 2 <= |lines| && CommaLines(lines)
    ensures ContentLines(Join(lines, '\n')) == lines
    ensures SeparatorFor(Join(lines, '\n')) == ','
  {
    JoinedLines(lines);
    var prefix := if |lines| <= 3 then lines else lines[..3];
    assert CommaLines(prefix) by {
      assert forall i :: 0 <= i < |prefix| ==> prefix[i] == lines[i];
    }
    CommaOutscores(prefix);
  }

  // ---------------------------------------------------------------------------
  // Reading the data rows back

  /** The English mapping has a text column: its third column is mapped to `TextA` with full confidence. */
  lemma EnglishHasText(mapping: seq<ColumnMapping>)
    requires EnglishMapping(mapping)
    ensures HasTextColumn(mapping)
  {
    assert FieldOrder[2] == TextA;
    assert mapping[2].mapped == TextA;
  }

  lemma EnglishClaimsOnce(mapping: seq<ColumnMapping>)
    requires EnglishMapping(mapping)
    ensures ClaimsOnce(mapping)
  {
  }

  /** Under the English mapping, column `e` of a record's portable values fills field `e` of `FieldOrder` with value `e`. */
  lemma ColumnTakes(mapping: seq<ColumnMapping>, record: ComparisonRecord, stamp: Stamp, e: nat)
    requires EnglishMapping(mapping) && e < 5 && Portable(ExportValues(record)[e])
    ensures Get(Assign(FreshRecord(stamp), RowAssignments(mapping, ExportValues(record))), FieldOrder[e])
         == Some(ExportValues(record)[e])
  {
    EnglishClaimsOnce(mapping);
    RowRecordFields(mapping, ExportValues(record), stamp, FieldOrder[e]);
  }

  /** Under the English mapping, the values of an exportable record fill a fresh record with its texts and notes. */
  lemma {:induction false} ValuesFillRecord(record: ComparisonRecord, mapping: seq<ColumnMapping>, stamp: Stamp)
    requires Exportable(record) && EnglishMapping(mapping)
    ensures Assign(FreshRecord(stamp), RowAssignments(mapping, ExportValues(record))) == Reimported(record, stamp)
  {
    var read := Assign(FreshRecord(stamp), RowAssignments(mapping, ExportValues(record)));
    assert FieldOrder == [ReferenceText, Context, TextA, TextB, Notes];
    ColumnTakes(mapping, record, stamp, 0);
    ColumnTakes(mapping, record, stamp, 1);
    ColumnTakes(mapping, record, stamp, 2);
    ColumnTakes(mapping, record, stamp, 3);
    ColumnTakes(mapping, record, stamp, 4);
    LastAssignmentWins(FreshRecord(stamp), RowAssignments(mapping, ExportValues(record)), Notes);
    HoldsExported(read, record, stamp);
  }

  /** A line that reads back as the values of an exportable record is accepted, under the English mapping, as that record reimported. */
  lemma RowAccepted(line: string, record: ComparisonRecord, mapping: seq<ColumnMapping>, row: nat, stamp: Stamp)
    requires Fields(line, ',') == ExportValues(record) && Exportable(record) && EnglishMapping(mapping)
    ensures ParseRow(line, ',', mapping, row, stamp) == Accepted(Reimported(record, stamp))
  {
    ValuesFillRecord(record, mapping, stamp);
  }

  /** Data lines that read back as the values of exportable records are each accepted, under the English mapping, as that record reimported. */
  lemma LinesAccepted(lines: seq<string>, records: seq<ComparisonRecord>, mapping: seq<ColumnMapping>, stamp: nat -> Stamp)
    requires |lines| == |records| + 1 && EnglishMapping(mapping)
    requires forall k :: 0 <= k < |records| ==> Fields(lines[k + 1], ',') == ExportValues(records[k]) && Exportable(records[k])
    ensures forall k :: 0 <= k < |records| ==>
      ParseRow(lines[k + 1], ',', mapping, k + 2, stamp(k + 1)) == Accepted(ReimportedAll(records, stamp)[k])
  {
    forall k | 0 <= k < |records|
      ensures ParseRow(lines[k + 1], ',', mapping, k + 2, stamp(k + 1)) == Accepted(ReimportedAll(records, stamp)[k])
    {
      RowAccepted(lines[k + 1], records[k], mapping, k + 2, stamp(k + 1));
    }
  }

  /** Non-blank data lines that are each accepted as a record give, the first `n - 1` of them, those records in order. */
  lemma {:induction false} RowsAccepted(lines: seq<string>, rows: seq<ComparisonRecord>, mapping: seq<ColumnMapping>,
                                        stamp: nat -> Stamp, n: nat)
    requires |lines| == |rows| + 1 && 1 <= n <= |lines|
    requires forall k :: 0 <= k < |rows| ==> ParseRow(lines[k + 1], ',', mapping, k + 2, stamp(k + 1)) == Accepted(rows[k])
    requires forall i :: 0 <= i < |lines| ==> NonBlank(lines[i])
    ensures |RowOutcomes(lines, ',', mapping, stamp, n)| == n - 1
    ensures forall k :: 0 <= k < n - 1 ==> RowOutcomes(lines, ',', mapping, stamp, n)[k] == Accepted(rows[k])
  {
    if n > 1 {
      RowsAccepted(lines, rows, mapping, stamp, n - 1);
      var outcome := ParseRow(lines[n - 1], ',', mapping, n, stamp(n - 1));
      assert outcome == Accepted(rows[n - 2]);
      OutcomesSnoc(lines, ',', mapping, stamp, n);
      AcceptedSnoc(RowOutcomes(lines, ',', mapping, stamp, n - 1), outcome, rows, n - 2);
    }
  }

  // ---------------------------------------------------------------------------
  // The round trip

  /** Line `i + 1` is the row of record `i`. */
  predicate RowsOf(lines: seq<string>, records: seq<ComparisonRecord>)
  {
    && |lines| == |records| + 1
    && forall i :: 0 <= i < |records| ==> lines[i + 1] == ExportRow(records[i])
  }

  /** Each data line of an export reads back as the six values of its record. */
  lemma LinesRead(lines: seq<string>, records: seq<ComparisonRecord>)
    requires RowsOf(lines, records) && forall i :: 0 <= i < |records| ==> Exportable(records[i])
    ensures forall k :: 0 <= k < |records| ==> Fields(lines[k + 1], ',') == ExportValues(records[k])
  {
    forall k | 0 <= k < |records| ensures Fields(lines[k + 1], ',') == ExportValues(records[k]) {
      RowReadsBack(records[k]);
    }
  }

  /** The data lines of an export, read under the English mapping, are the records reimported and no error. */
  lemma {:induction false} RowsImport(lines: seq<string>, records: seq<ComparisonRecord>, mapping: seq<ColumnMapping>,
                                      stamp: nat -> Stamp)
    requires RowsOf(lines, records) && CommaLines(lines) && EnglishMapping(mapping)
    requires forall i :: 0 <= i < |records| ==> Exportable(records[i])
    ensures DataRows(lines, ',', mapping, stamp, |lines|) == (ReimportedAll(records, stamp), [])
  {
    LinesRead(lines, records);
    LinesAccepted(lines, records, mapping, stamp);
    RowsAccepted(lines, ReimportedAll(records, stamp), mapping, stamp, |lines|);
    TalliedAccepted(RowOutcomes(lines, ',', mapping, stamp, |lines|), ReimportedAll(records, stamp));
  }

  /** The row of an exportable record is a comma line. */
  lemma RowIsCommaLine(record: ComparisonRecord)
    requires Exportable(record)
    ensures CommaLine(ExportRow(record))
  {
    RowShape(record);
    RowReadsBack(record);
  }

  /** After a header row, line `i + 1` of an export is the row of record `i`. */
  lemma ExportRowsOf(headerRow: string, records: seq<ComparisonRecord>)
    ensures RowsOf([headerRow] + ExportRows(records), records)
  {
    var lines := [headerRow] + ExportRows(records);
    forall i | 0 <= i < |records| ensures lines[i + 1] == ExportRow(records[i]) {
    }
  }

  /** A header row that is a comma line, followed by the rows of exportable records, is all comma lines. */
  lemma ExportShape(headerRow: string, records: seq<ComparisonRecord>)
    requires forall i :: 0 <= i < |records| ==> Exportable(records[i])
    requires CommaLine(headerRow)
    ensures CommaLines([headerRow] + ExportRows(records))
  {
    var lines := [headerRow] + ExportRows(records);
    forall i | 0 <= i < |lines| ensures CommaLine(lines[i]) {
      if i > 0 {
        assert lines[i] == ExportRow(records[i - 1]);
        RowIsCommaLine(records[i - 1]);
      }
    }
  }

  /**
   * Content made of comma lines whose header row maps like the English one,
   * and whose data lines give `rows` and no error, imports successfully as
   * `rows`, with the comma detected.
   */
  lemma {:induction false} ImportOfCommaLines(lines: seq<string>, headers: seq<string>, rows: seq<ComparisonRecord>,
                                              table: PatternTable, stamp: nat -> Stamp)
    requires 2 <= |lines| && CommaLines(lines) && Fields(lines[0], ',') == headers
    requires EnglishMapping(HeaderMappings(headers, table, {}))
    requires DataRows(lines, ',', HeaderMappings(headers, table, {}), stamp, |lines|) == (rows, [])
    ensures var r := SmartParse(Join(lines, '\n'), table, stamp);
      && r.success && r.errors == [] && r.records == rows
      && r.suggestions != [] && r.suggestions[0] == DetectedSeparator(',')
  {
    EnglishHasText(HeaderMappings(headers, table, {}));
    CommaDetected(lines);
  }

  /**
   * An import result that succeeded, detected the comma, and holds the
   * records of `records` reimported: in order, with their texts and notes,
   * record `i` with the identity generated for line `i + 1`.
   */
  predicate ImportsAs(r: SmartCsvResult, records: seq<ComparisonRecord>, stamp: nat -> Stamp)
  {
    && r.success && r.errors == [] && r.records == ReimportedAll(records, stamp)
    && r.suggestions != [] && r.suggestions[0] == DetectedSeparator(',')
  }

  /** Comma lines holding the English header row and then the rows of `records` import as `records`. */
  lemma {:induction false} EnglishLinesImport(lines: seq<string>, records: seq<ComparisonRecord>, table: PatternTable,
                                              stamp: nat -> Stamp)
    requires 1 <= |records| && Canonical(table, EnglishHeaders)
    requires RowsOf(lines, records) && CommaLines(lines) && Fields(lines[0], ',') == EnglishHeaders
    requires forall i :: 0 <= i < |records| ==> Exportable(records[i])
    ensures ImportsAs(SmartParse(Join(lines, '\n'), table, stamp), records, stamp)
  {
    var mapping := HeaderMappings(EnglishHeaders, table, {});
    HeadersMapInOrder(table, EnglishHeaders);
    RowsImport(lines, records, mapping, stamp);
    ImportOfCommaLines(lines, EnglishHeaders, ReimportedAll(records, stamp), table, stamp);
  }

  /**
   * A header row reading back as the English headers, followed by the rows of
   * one or more exportable records, imports with a canonical pattern table
   * as those records.
   */
  lemma {:induction false} RowsImportWith(headerRow: string, records: seq<ComparisonRecord>, table: PatternTable,
                                          stamp: nat -> Stamp)
    requires 1 <= |records| && Canonical(table, EnglishHeaders)
    requires forall i :: 0 <= i < |records| ==> Exportable(records[i])
    requires CommaLine(headerRow) && Fields(headerRow, ',') == EnglishHeaders
    ensures ImportsAs(SmartParse(Join([headerRow] + ExportRows(records), '\n'), table, stamp), records, stamp)
  {
    ExportRowsOf(headerRow, records);
    ExportShape(headerRow, records);
    EnglishLinesImport([headerRow] + ExportRows(records), records, table, stamp);
  }

  /**
   * Exporting one or more exportable records in English and importing the
   * result with a canonical pattern table succeeds, detects the comma, and
   * gives back every record, in order, with its texts and notes.
   */
  lemma {:induction false} RoundTripWith(records: seq<ComparisonRecord>, table: PatternTable, stamp: nat -> Stamp)
    requires 1 <= |records| && Canonical(table, EnglishHeaders)
    requires forall i :: 0 <= i < |records| ==> Exportable(records[i])
    ensures ImportsAs(SmartParse(SmartExport(records, "en"), table, stamp), records, stamp)
  {
    EnglishIsLocalized();
    HeaderRowShape();
    HeaderRowReadsBack();
    RowsImportWith(HeaderRow(), records, table, stamp);
  }

  // ---------------------------------------------------------------------------
  // The column patterns are canonical

  /** English header `e` matches pattern `p` of entry `e` of the column patterns exactly. */
  lemma {:induction false} PatternMatches(e: nat, p: nat)
    requires e < 5 && p < |ColumnPatterns[e].1|
    requires Normalize(EnglishHeaders[e]) == Normalize(ColumnPatterns[e].1[p])
    ensures Similarity(EnglishHeaders[e], ColumnPatterns[e].1[p]) == 1.0
  {
  }

  /** "Reference_Text" and "reference_text" differ only in case, which normalising drops. */
  lemma ReferenceNormal()
    ensures Normalize("Reference_Text") == Normalize("reference_text")
  {
    assert "Reference_Text" == "Reference" + "_Text" && "reference_text" == "reference" + "_text";
    NormalizeAppend("Reference", "_Text");
    NormalizeAppend("reference", "_text");
    assert Normalize("Reference") == Normalize("reference");
    assert Normalize("_Text") == Normalize("_text");
  }

  lemma ReferenceMatches()
    ensures 5 < |ColumnPatterns[0].1| && Normalize(EnglishHeaders[0]) == Normalize(ColumnPatterns[0].1[5])
  {
    assert ColumnPatterns[0].1[5] == "reference_text" by {
      assert ColumnPatterns[0].1 == ReferencePatterns;
    }
    assert EnglishHeaders[0] == "Reference_Text";
    ReferenceNormal();
  }

  lemma ReferenceSimilar()
    ensures 5 < |ColumnPatterns[0].1| && Similarity(EnglishHeaders[0], ColumnPatterns[0].1[5]) == 1.0
  {
    ReferenceMatches();
    PatternMatches(0, 5);
  }

  lemma ContextMatches()
    ensures 0 < |ColumnPatterns[1].1| && Similarity(EnglishHeaders[1], ColumnPatterns[1].1[0]) == 1.0
  {
    assert ColumnPatterns[1].1 == ContextPatterns;
    assert ContextPatterns[0] == "context";
    assert EnglishHeaders[1] == "Context";
    assert Normalize("Context") == Normalize("context");
    PatternMatches(1, 0);
  }

  lemma TextAMatches()
    ensures 25 < |ColumnPatterns[2].1| && Similarity(EnglishHeaders[2], ColumnPatterns[2].1[25]) == 1.0
  {
    assert ColumnPatterns[2].1 == TextAPatterns;
    assert TextAPatterns[25] == "text_a";
    assert EnglishHeaders[2] == "Text_A";
    assert Normalize("Text_A") == Normalize("text_a");
    PatternMatches(2, 25);
  }

  lemma TextBMatches()
    ensures 25 < |ColumnPatterns[3].1| && Similarity(EnglishHeaders[3], ColumnPatterns[3].1[25]) == 1.0
  {
    assert ColumnPatterns[3].1 == TextBPatterns;
    assert TextBPatterns[25] == "text_b";
    assert EnglishHeaders[3] == "Text_B";
    assert Normalize("Text_B") == Normalize("text_b");
    PatternMatches(3, 25);
  }

  lemma NotesMatches()
    ensures 0 < |ColumnPatterns[4].1| && Similarity(EnglishHeaders[4], ColumnPatterns[4].1[0]) == 1.0
  {
    assert ColumnPatterns[4].1 == NotesPatterns;
    assert NotesPatterns[0] == "notes";
    assert EnglishHeaders[4] == "Notes";
    assert Normalize("Notes") == Normalize("notes");
    PatternMatches(4, 0);
  }

  /** A table is canonical once each of its five entries is shown to name its field and hold a pattern its header matches. */
  lemma {:induction false} CanonicalByEntries(table: PatternTable, headers: seq<string>, ps: seq<nat>)
    requires |table| == 5 && |headers| == 6 && |ps| == 5
    requires table[0].0 == ReferenceText && table[1].0 == Context && table[2].0 == TextA
    requires table[3].0 == TextB && table[4].0 == Notes
    requires ps[0] < |table[0].1| && Similarity(headers[0], table[0].1[ps[0]]) == 1.0
    requires ps[1] < |table[1].1| && Similarity(headers[1], table[1].1[ps[1]]) == 1.0
    requires ps[2] < |table[2].1| && Similarity(headers[2], table[2].1[ps[2]]) == 1.0
    requires ps[3] < |table[3].1| && Similarity(headers[3], table[3].1[ps[3]]) == 1.0
    requires ps[4] < |table[4].1| && Similarity(headers[4], table[4].1[ps[4]]) == 1.0
    ensures Canonical(table, headers)
  {
    forall e | 0 <= e < 5
      ensures table[e].0 == FieldOrder[e]
      ensures exists p :: 0 <= p < |table[e].1| && Similarity(headers[e], table[e].1[p]) == 1.0
    {
      assert ps[e] < |table[e].1| && Similarity(headers[e], table[e].1[ps[e]]) == 1.0;
    }
  }

  /** The column patterns list the five fields in the English headers' order, each with a pattern its header matches exactly. */
  lemma {:induction false} ColumnPatternsCanonical()
    ensures Canonical(ColumnPatterns, EnglishHeaders)
  {
    ReferenceSimilar();
    ContextMatches();
    TextAMatches();
    TextBMatches();
    NotesMatches();
    CanonicalByEntries(ColumnPatterns, EnglishHeaders, [5, 0, 25, 25, 0]);
  }

  /**
   * `exportSmartCSV` in English followed by `parseSmartCSV` with the column
   * patterns gives back one or more exportable records, in order, with their
   * texts and notes.
   */
  lemma ExportThenImport(records: seq<ComparisonRecord>, stamp: nat -> Stamp)
    requires 1 <= |records|
    requires forall i :: 0 <= i < |records| ==> Exportable(records[i])
    ensures ImportsAs(SmartParse(SmartExport(records, "en"), ColumnPatterns, stamp), records, stamp)
  {
    ColumnPatternsCanonical();
    RoundTripWith(records, ColumnPatterns, stamp);
  }
}
