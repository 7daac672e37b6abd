/**
 * The smart importer and exporter: separator detection over the first lines,
 * header mapping against the multilingual column patterns, row-by-row record
 * building with its errors and suggestions, and the localized export.
 */
module SmartCsv {
  import opened Wrappers
  import opened JsString
  import opened Records
  import opened CsvLine
  import opened HeaderMapping

  /** `COLUMN_PATTERNS`: each record field with its synonyms, in declaration order. */
  const ColumnPatterns: PatternTable := [
    (ReferenceText, ReferencePatterns),
    (Context, ContextPatterns),
    (TextA, TextAPatterns),
    (TextB, TextBPatterns),
    (Notes, NotesPatterns)
  ]

  /** The synonyms of `referenceText`. */
  const ReferencePatterns: seq<string> := [
    "reference", "source", "original", "base", "master", "reference_text", "source_text",
    "referencia", "fuente", "texto_referencia", "original",
    "referência", "fonte", "texto_referência", "original",
    "référence", "source", "original", "texte_source",
    "referenz", "quelle", "original", "basis",
    "moto", "genpon", "kihon",
    "wonseo", "giwon",
    "marji", "asl", "masdar",
    "istochnik", "original",
    "ref", "src", "orig"]

  /** The synonyms of `context`. */
  const ContextPatterns: seq<string> := [
    "context", "usage", "description", "notes", "comments", "purpose", "use_case",
    "contexto", "uso", "descripción", "propósito",
    "contexto", "uso", "descrição", "propósito",
    "contexte", "utilisation", "description", "objectif",
    "kontext", "verwendung", "beschreibung", "zweck",
    "bunmyaku", "riyou", "setsumei",
    "munmaek", "sayong", "seolmyeong",
    "siyaq", "istikhdam", "wasf",
    "kontekst", "ispolzovanie", "opisanie",
    "desc", "info"]

  /** The synonyms of `textA`. */
  const TextAPatterns: seq<string> := [
    "text_a", "version_a", "candidate_1", "original", "current", "old", "before",
    "translation_1", "option_1", "variant_1",
    "texto_a", "version_a", "candidato_1", "original", "actual",
    "texto_a", "versão_a", "candidato_1", "original", "atual",
    "texte_a", "version_a", "candidat_1", "original", "actuel",
    "text_a", "version_a", "kandidat_1", "original", "aktuell",
    "tekisuto_a", "ban_a", "koho_1", "genpon",
    "teksteu_a", "beojeon_a", "hugbo_1", "wonbon",
    "nas_a", "nuskha_a", "murashaha_1", "asliyya",
    "tekst_a", "versiya_a", "variant_1", "originalnyi",
    "a", "1", "first", "uno", "eins", "un", "yi", "hana"]

  /** The synonyms of `textB`. */
  const TextBPatterns: seq<string> := [
    "text_b", "version_b", "candidate_2", "revised", "new", "after", "updated",
    "translation_2", "option_2", "variant_2",
    "texto_b", "version_b", "candidato_2", "revisado", "nuevo",
    "texto_b", "versão_b", "candidato_2", "revisado", "novo",
    "texte_b", "version_b", "candidat_2", "révisé", "nouveau",
    "text_b", "version_b", "kandidat_2", "überarbeitet", "neu",
    "tekisuto_b", "ban_b", "koho_2", "kaizen",
    "teksteu_b", "beojeon_b", "hugbo_2", "sujeonggwan",
    "nas_b", "nuskha_b", "murashaha_2", "munaqqaha",
    "tekst_b", "versiya_b", "variant_2", "novyi",
    "b", "2", "second", "dos", "zwei", "deux", "er", "dul"]

  /** The synonyms of `notes`. */
  const NotesPatterns: seq<string> := [
    "notes", "comments", "remarks", "observations", "feedback",
    "notas", "comentarios", "observaciones", "retroalimentación",
    "notas", "comentários", "observações", "feedback",
    "notes", "commentaires", "remarques", "observations",
    "notizen", "kommentare", "bemerkungen", "feedback",
    "memo", "komento", "bikou", "kansou",
    "memo", "daegul", "gwallyeon", "uigyeon",
    "mulahazat", "taeliqat", "tajawubu", "aara",
    "zametki", "kommentarii", "zamechaniya", "otziv",
    "note", "comment"]

  // ---------------------------------------------------------------------------
  // Separator detection

  /** The candidate separators, in the order their scores are recorded. */
  const Separators: seq<char> := [',', ';', '\t', '|']

  /** `csvContent.split('\n').slice(0, 3).filter(line => line.trim())`. */
  function SampleLines(content: string): (r: seq<string>)
    ensures |r| <= 3
  {
    var all := Split(content, '\n');
    NonBlankLines(if |all| <= 3 then all else all[..3])
  }

  /** One line's contribution: its field count, plus 10 when that count exceeds 1 and equals the first line's. */
  function LineScore(count: nat, firstLineCount: nat): nat
  {
    count + (if count == firstLineCount && count > 1 then 10 else 0)
  }

  /** `score + consistency` after the first `n` sample lines. */
  function ScoreOf(lines: seq<string>, sep: char, n: nat): nat
    requires 1 <= |lines| && n <= |lines|
  {
    if n == 0 then 0
    else ScoreOf(lines, sep, n - 1) + LineScore(|Fields(lines[n - 1], sep)|, |Fields(lines[0], sep)|)
  }

  /** The recorded score of every candidate, in candidate order. */
  function Scores(lines: seq<string>): (r: seq<nat>)
    requires 1 <= |lines|
    ensures |r| == |Separators|
  {
    seq(|Separators|, s requires 0 <= s < |Separators| => ScoreOf(lines, Separators[s], |lines|))
  }

  /**
   * The position a stable descending sort puts first among the first `n`
   * scores: a highest score, and the earliest of the highest.
   */
  function FirstMax(scores: seq<nat>, n: nat): (r: nat)
    requires 1 <= n <= |scores|
    ensures r < n
    ensures forall j :: 0 <= j < n ==> scores[j] <= scores[r]
    ensures forall j :: 0 <= j < r ==> scores[j] < scores[r]
  {
    if n == 1 then 0
    else
      var prev := FirstMax(scores, n - 1);
      if scores[n - 1] > scores[prev] then n - 1 else prev
  }

  /** `detectSeparator`: comma without sample lines, else the candidate the descending sort puts first. */
  function SeparatorFor(content: string): (r: char)
    ensures r in Separators
    ensures SampleLines(content) == [] ==> r == ','
  {
    var lines := SampleLines(content);
    if |lines| == 0 then ','
    else Separators[FirstMax(Scores(lines), |Separators|)]
  }

  /**
   * The detected separator scores at least as high as every candidate, and
   * strictly higher than every candidate listed before it.
   */
  lemma SeparatorIsBest(content: string)
    requires SampleLines(content) != []
    ensures var lines := SampleLines(content);
      exists s :: 0 <= s < |Separators| && SeparatorFor(content) == Separators[s]
        && (forall t :: 0 <= t < |Separators| ==> ScoreOf(lines, Separators[t], |lines|) <= ScoreOf(lines, Separators[s], |lines|))
        && (forall t :: 0 <= t < s ==> ScoreOf(lines, Separators[t], |lines|) < ScoreOf(lines, Separators[s], |lines|))
  {
    var lines := SampleLines(content);
    var scores := Scores(lines);
    var s := FirstMax(scores, |Separators|);
    assert SeparatorFor(content) == Separators[s];
    forall t | 0 <= t < |Separators|
      ensures scores[t] == ScoreOf(lines, Separators[t], |lines|)
    {
    }
  }

  /** `detectSeparator`, with its per-separator counters and the final sort. */
  method DetectSeparator(content: string) returns (sep: char)
    ensures sep == SeparatorFor(content)
  {
    var lines := SampleLines(content);
    if |lines| == 0 {
      return ',';
    }
    var separatorScores: seq<nat> := [];
    var s := 0;
    while s < |Separators|
      invariant 0 <= s <= |Separators|
      invariant |separatorScores| == s
      invariant forall t :: 0 <= t < s ==> separatorScores[t] == ScoreOf(lines, Separators[t], |lines|)
    {
      var total := SeparatorScore(lines, Separators[s]);
      separatorScores := separatorScores + [total];
      s := s + 1;
    }
    assert separatorScores == Scores(lines);
    var best := TopScore(separatorScores);
    sep := Separators[best];
  }

  /** The descending sort's first entry, found by one scan that moves only on a strictly higher score. */
  method TopScore(scores: seq<nat>) returns (best: nat)
    requires 1 <= |scores|
    ensures best == FirstMax(scores, |scores|)
  {
    best := 0;
    var k := 1;
    while k < |scores|
      invariant 1 <= k <= |scores|
      invariant best == FirstMax(scores, k)
    {
      if scores[k] > scores[best] {
        best := k;
      }
      k := k + 1;
    }
  }

  /** The body of the source's per-separator loop: field counts and the consistency bonus. */
  method SeparatorScore(lines: seq<string>, candidate: char) returns (total: nat)
    requires 1 <= |lines|
    ensures total == ScoreOf(lines, candidate, |lines|)
  {
    var score := 0;
    var consistency := 0;
    var firstLineCount := 0;
    var index := 0;
    while index < |lines|
      invariant 0 <= index <= |lines|
      invariant index > 0 ==> firstLineCount == |Fields(lines[0], candidate)|
      invariant score + consistency == ScoreOf(lines, candidate, index)
    {
      var fields := ParseCsvLine(lines[index], candidate);
      var count := |fields|;
      if index == 0 {
        firstLineCount := count;
      }
      score := score + count;
      if count == firstLineCount && count > 1 {
        consistency := consistency + 10;
      }
      index := index + 1;
    }
    total := score + consistency;
  }

  // ---------------------------------------------------------------------------
  // Import

  /** The failures the importer reports; rows are numbered from 1 at the header line. */
  datatype CsvError =
    | TooFewLines
    | NoTextColumns
    | ColumnCount(row: nat, expected: nat, found: nat)
    | NoTextContent(row: nat)

  /** The advice the importer returns alongside its result. */
  datatype Suggestion =
    | AddHeaderRow
    | IncludeDataRow
    | NameTextColumns
    | UseClearColumnNames
    | IncludeTextColumn
    | DetectedSeparator(separator: char)
    | LowConfidence(columns: seq<string>)

  datatype SmartCsvResult = SmartCsvResult(
    success: bool,
    records: seq<ComparisonRecord>,
    errors: seq<CsvError>,
    mapping: seq<ColumnMapping>,
    suggestions: seq<Suggestion>)

  /** Some column is mapped to text A or text B above the threshold. */
  predicate HasTextColumn(mapping: seq<ColumnMapping>)
  {
    exists k :: 0 <= k < |mapping| && (mapping[k].mapped == TextA || mapping[k].mapped == TextB)
      && mapping[k].confidence > Threshold
  }

  /** The headers of the columns mapped below 0.8, in column order. */
  function LowConfidenceColumns(mapping: seq<ColumnMapping>): (r: seq<string>)
    ensures |r| <= |mapping|
    ensures r == [] <==> forall k :: 0 <= k < |mapping| ==> mapping[k].confidence >= 0.8
  {
    if mapping == [] then []
    else (if mapping[0].confidence < 0.8 then [mapping[0].detected] else []) + LowConfidenceColumns(mapping[1..])
  }

  /** What each column does to a record: set its mapped field (above the threshold only) to the trimmed value. */
  function RowAssignments(mapping: seq<ColumnMapping>, values: seq<string>): (r: seq<Assignment>)
    requires |values| == |mapping|
    ensures |r| == |mapping|
  {
    seq(|mapping|, k requires 0 <= k < |mapping| =>
      (if mapping[k].confidence > Threshold then Some(mapping[k].mapped) else None, TrimStr(values[k])))
  }

  /** One data line, numbered `row`: the wrong number of values, no text, or a record. */
  function ParseRow(line: string, sep: char, mapping: seq<ColumnMapping>, row: nat, stamp: Stamp): (r: RowOutcome<CsvError>)
    ensures r.Accepted? ==> r.record.textA != "" || r.record.textB != ""
    ensures r.Rejected? ==> r.error.ColumnCount? || r.error.NoTextContent?
  {
    var values := Fields(line, sep);
    if |values| != |mapping| then Rejected(ColumnCount(row, |mapping|, |values|))
    else
      var record := Assign(FreshRecord(stamp), RowAssignments(mapping, values));
      if record.textA == "" && record.textB == "" then Rejected(NoTextContent(row))
      else Accepted(record)
  }

  /** The outcomes of the non-blank data lines among `lines[1..n]`, in order; line `i` is row `i + 1`. */
  function RowOutcomes(lines: seq<string>, sep: char, mapping: seq<ColumnMapping>, stamp: nat -> Stamp, n: nat)
    : (r: seq<RowOutcome<CsvError>>)
    requires 1 <= n <= |lines|
    ensures |r| <= n - 1
  {
    if n == 1 then []
    else
      RowOutcomes(lines, sep, mapping, stamp, n - 1)
      + (if NonBlank(lines[n - 1]) then [ParseRow(lines[n - 1], sep, mapping, n, stamp(n - 1))] else [])
  }

  /** Records and errors after the data lines `lines[1..n]`. */
  function DataRows(lines: seq<string>, sep: char, mapping: seq<ColumnMapping>, stamp: nat -> Stamp, n: nat)
    : (r: (seq<ComparisonRecord>, seq<CsvError>))
    requires 1 <= n <= |lines|
  {
    Tallied(RowOutcomes(lines, sep, mapping, stamp, n))
  }

  /** `count` rows tallied: one record or one error each, every record with text A or text B. */
  predicate TextRows(r: (seq<ComparisonRecord>, seq<CsvError>), count: nat)
  {
    && |r.0| + |r.1| == count
    && forall i :: 0 <= i < |r.0| ==> r.0[i].textA != "" || r.0[i].textB != ""
  }

  /** Tallying the outcome of one more row keeps every record with a text. */
  lemma TallyKeepsText(acc: (seq<ComparisonRecord>, seq<CsvError>), outcome: RowOutcome<CsvError>, count: nat)
    requires TextRows(acc, count)
    requires outcome.Accepted? ==> outcome.record.textA != "" || outcome.record.textB != ""
    ensures TextRows(Tally(acc, outcome), count + 1)
  {
    if outcome.Accepted? {
      assert forall i :: 0 <= i < |acc.0| ==> Tally(acc, outcome).0[i] == acc.0[i];
    }
  }

  /** Every non-blank data line yields one record or one error, and every accepted record has text A or text B. */
  lemma {:induction false} RowsHaveText(lines: seq<string>, sep: char, mapping: seq<ColumnMapping>, stamp: nat -> Stamp, n: nat)
    requires 1 <= n <= |lines|
    ensures TextRows(DataRows(lines, sep, mapping, stamp, n), |RowOutcomes(lines, sep, mapping, stamp, n)|)
  {
    if n > 1 {
      RowsHaveText(lines, sep, mapping, stamp, n - 1);
      var prev := RowOutcomes(lines, sep, mapping, stamp, n - 1);
      if NonBlank(lines[n - 1]) {
        var outcome := ParseRow(lines[n - 1], sep, mapping, n, stamp(n - 1));
        TalliedSnoc(prev, outcome);
        TallyKeepsText(Tallied(prev), outcome, |prev|);
      } else {
        assert prev + [] == prev;
        assert RowOutcomes(lines, sep, mapping, stamp, n) == prev;
      }
    }
  }

  /** `csvContent.split('\n').filter(line => line.trim())`. */
  function ContentLines(content: string): seq<string>
  {
    NonBlankLines(Split(content, '\n'))
  }

  /**
   * `parseSmartCSV`. `stamp(i)` stands for the id and time generated for the
   * record built from line `i`.
   */
  function SmartParse(content: string, table: PatternTable, stamp: nat -> Stamp): (r: SmartCsvResult)
    ensures r.success <==> r.errors == []
    ensures forall i :: 0 <= i < |r.records| ==> r.records[i].textA != "" || r.records[i].textB != ""
    ensures r.records != [] ==> HasTextColumn(r.mapping)
  {
    var lines := ContentLines(content);
    if |lines| < 2 then
      SmartCsvResult(false, [], [TooFewLines], [], [AddHeaderRow, IncludeDataRow])
    else
      ReadLines(lines, SeparatorFor(content), table, stamp)
  }

  /** The part of `parseSmartCSV` after the separator is detected in two or more lines. */
  function ReadLines(lines: seq<string>, sep: char, table: PatternTable, stamp: nat -> Stamp): (r: SmartCsvResult)
    requires |lines| >= 2
    ensures r.success <==> r.errors == []
    ensures forall i :: 0 <= i < |r.records| ==> r.records[i].textA != "" || r.records[i].textB != ""
    ensures r.records != [] ==> HasTextColumn(r.mapping)
  {
    var headers := Fields(lines[0], sep);
    var mapping := HeaderMappings(headers, table, {});
    if !HasTextColumn(mapping) then
      SmartCsvResult(false, [], [NoTextColumns], mapping, [NameTextColumns, UseClearColumnNames, IncludeTextColumn])
    else
      var rows := DataRows(lines, sep, mapping, stamp, |lines|);
      RowsHaveText(lines, sep, mapping, stamp, |lines|);
      var low := LowConfidenceColumns(mapping);
      var suggestions := [DetectedSeparator(sep)] + (if low == [] then [] else [LowConfidence(low)]);
      SmartCsvResult(rows.1 == [], rows.0, rows.1, mapping, suggestions)
  }

  /** `parseSmartCSV`, with its row loop. */
  method ParseSmartCsv(content: string, table: PatternTable, stamp: nat -> Stamp) returns (result: SmartCsvResult)
    ensures result == SmartParse(content, table, stamp)
  {
    var lines := ContentLines(content);
    if |lines| < 2 {
      return SmartCsvResult(false, [], [TooFewLines], [], [AddHeaderRow, IncludeDataRow]);
    }
    var separator := DetectSeparator(content);
    result := ImportLines(lines, separator, table, stamp);
  }

  /** `parseSmartCSV` once the separator is detected: the header mapping, the row loop and the suggestions. */
  method ImportLines(lines: seq<string>, separator: char, table: PatternTable, stamp: nat -> Stamp) returns (result: SmartCsvResult)
    requires |lines| >= 2
    ensures result == ReadLines(lines, separator, table, stamp)
  {
    var headers := ParseCsvLine(lines[0], separator);
    var mapping := MapCsvHeaders(headers, table);
    if !HasTextColumn(mapping) {
      return SmartCsvResult(false, [], [NoTextColumns], mapping, [NameTextColumns, UseClearColumnNames, IncludeTextColumn]);
    }
    var records, errors := ParseDataRows(lines, separator, |headers|, mapping, stamp);
    var low := LowConfidenceColumns(mapping);
    var suggestions: seq<Suggestion> := [];
    if low != [] {
      suggestions := suggestions + [LowConfidence(low)];
    }
    suggestions := [DetectedSeparator(separator)] + suggestions;
    assert suggestions == [DetectedSeparator(separator)] + (if low == [] then [] else [LowConfidence(low)]);
    result := SmartCsvResult(|errors| == 0, records, errors, mapping, suggestions);
  }

  /** The data-row loop of `parseSmartCSV`: line `i` is reported as row `i + 1`. */
  method ParseDataRows(lines: seq<string>, separator: char, headerCount: nat, mapping: seq<ColumnMapping>, stamp: nat -> Stamp)
    returns (records: seq<ComparisonRecord>, errors: seq<CsvError>)
    requires 1 <= |lines| && |mapping| == headerCount
    ensures (records, errors) == DataRows(lines, separator, mapping, stamp, |lines|)
  {
    records, errors := [], [];
    ghost var outcomes: seq<RowOutcome<CsvError>> := [];
    var i := 1;
    while i < |lines|
      invariant 1 <= i <= |lines|
      invariant outcomes == RowOutcomes(lines, separator, mapping, stamp, i)
      invariant (records, errors) == Tallied(outcomes)
    {
      var line := lines[i];
      if NonBlank(line) {
        var outcome := ParseDataLine(line, separator, headerCount, mapping, i + 1, stamp(i));
        match outcome {
          case Accepted(record) => records := records + [record];
          case Rejected(error) => errors := errors + [error];
        }
        TalliedSnoc(outcomes, outcome);
        outcomes := outcomes + [outcome];
      } else {
        assert outcomes + [] == outcomes;
      }
      i := i + 1;
    }
  }

  /** The body of the row loop for one non-blank line: its values, then either an error or a record. */
  method ParseDataLine(line: string, separator: char, headerCount: nat, mapping: seq<ColumnMapping>, row: nat, stamp: Stamp)
    returns (outcome: RowOutcome<CsvError>)
    requires |mapping| == headerCount
    ensures outcome == ParseRow(line, separator, mapping, row, stamp)
  {
    var values := ParseCsvLine(line, separator);
    if |values| != headerCount {
      return Rejected(ColumnCount(row, headerCount, |values|));
    }
    var record := ApplyMapping(mapping, values, stamp);
    if record.textA == "" && record.textB == "" {
      return Rejected(NoTextContent(row));
    }
    outcome := Accepted(record);
  }

  /** The source's `mapping.forEach`: each column above the threshold writes its trimmed value to its field. */
  method ApplyMapping(mapping: seq<ColumnMapping>, values: seq<string>, stamp: Stamp) returns (record: ComparisonRecord)
    requires |values| == |mapping|
    ensures record == Assign(FreshRecord(stamp), RowAssignments(mapping, values))
  {
    ghost var steps := RowAssignments(mapping, values);
    record := FreshRecord(stamp);
    var index := 0;
    while index < |mapping|
      invariant 0 <= index <= |mapping|
      invariant record == Assign(FreshRecord(stamp), steps[..index])
    {
      var map_ := mapping[index];
      var value := TrimStr(values[index]);
      assert steps[..index + 1][..index] == steps[..index];
      if map_.confidence > Threshold {
        record := SetField(record, map_.mapped, value);
      }
      index := index + 1;
    }
    assert steps[..|mapping|] == steps;
  }

  /** A non-blank data line adds its own outcome after those of the lines before it. */
  lemma OutcomesSnoc(lines: seq<string>, sep: char, mapping: seq<ColumnMapping>, stamp: nat -> Stamp, n: nat)
    requires 2 <= n <= |lines| && NonBlank(lines[n - 1])
    ensures RowOutcomes(lines, sep, mapping, stamp, n)
         == RowOutcomes(lines, sep, mapping, stamp, n - 1) + [ParseRow(lines[n - 1], sep, mapping, n, stamp(n - 1))]
  {
  }

  /** When every line is non-blank, every data line has an outcome. */
  lemma {:induction false} EveryRowAccounted(lines: seq<string>, sep: char, mapping: seq<ColumnMapping>, stamp: nat -> Stamp, n: nat)
    requires 1 <= n <= |lines|
    requires forall i :: 0 <= i < |lines| ==> NonBlank(lines[i])
    ensures |RowOutcomes(lines, sep, mapping, stamp, n)| == n - 1
  {
    if n > 1 {
      EveryRowAccounted(lines, sep, mapping, stamp, n - 1);
    }
  }

  /**
   * Fewer than two non-blank lines is an error; otherwise every data line is
   * accounted for once the header is usable, and a successful import yields a
   * record for every data line.
   */
  lemma ImportOutcome(content: string, table: PatternTable, stamp: nat -> Stamp)
    ensures var r := SmartParse(content, table, stamp);
      && (|ContentLines(content)| < 2 ==> !r.success && r.errors == [TooFewLines] && r.records == [])
      && (|ContentLines(content)| >= 2 && HasTextColumn(r.mapping) ==>
            |r.records| + |r.errors| == |ContentLines(content)| - 1)
      && (r.success ==> |r.records| == |ContentLines(content)| - 1 >= 1)
  {
    var lines := ContentLines(content);
    if |lines| >= 2 {
      var sep := SeparatorFor(content);
      var mapping := SmartParse(content, table, stamp).mapping;
      EveryRowAccounted(lines, sep, mapping, stamp, |lines|);
      RowsHaveText(lines, sep, mapping, stamp, |lines|);
    }
  }

  /** No field is taken by two columns above the threshold. */
  predicate ClaimsOnce(mapping: seq<ColumnMapping>)
  {
    forall i, j :: 0 <= i < j < |mapping| && mapping[i].confidence > Threshold && mapping[j].confidence > Threshold ==>
      mapping[i].mapped != mapping[j].mapped
  }

  /**
   * With each field claimed at most once, a row's record holds in every field
   * the trimmed value of the column mapped to it above the threshold, and
   * keeps its starting value in a field no such column maps to.
   */
  lemma RowRecordFields(mapping: seq<ColumnMapping>, values: seq<string>, stamp: Stamp, f: Field)
    requires |values| == |mapping| && ClaimsOnce(mapping)
    ensures var record := Assign(FreshRecord(stamp), RowAssignments(mapping, values));
      && (forall k :: 0 <= k < |mapping| && mapping[k].confidence > Threshold && mapping[k].mapped == f ==>
            Get(record, f) == Some(TrimStr(values[k])))
      && ((forall k :: 0 <= k < |mapping| ==> !(mapping[k].confidence > Threshold && mapping[k].mapped == f)) ==>
            Get(record, f) == Get(FreshRecord(stamp), f))
      && record.id == Some(stamp.id) && record.timestamp == Some(stamp.time)
  {
    var steps := RowAssignments(mapping, values);
    LastAssignmentWins(FreshRecord(stamp), steps, f);
    var last := LastFor(steps, f);
    forall k | 0 <= k < |mapping| && mapping[k].confidence > Threshold && mapping[k].mapped == f
      ensures last == k
    {
      assert steps[k].0 == Some(f);
    }
  }

  // ---------------------------------------------------------------------------
  // Export

  /** `headerTranslations`: the six export headers of each supported language. */
  const HeaderTranslations: map<string, seq<string>> := map[
    "en" := ["Reference_Text", "Context", "Text_A", "Text_B", "Notes", "Timestamp"],
    "es" := ["Texto_Referencia", "Contexto", "Texto_A", "Texto_B", "Notas", "Marca_Tiempo"],
    "pt" := ["Texto_Referência", "Contexto", "Texto_A", "Texto_B", "Notas", "Marca_Tempo"],
    "pt-BR" := ["Texto_Referência", "Contexto", "Texto_A", "Texto_B", "Notas", "Data_Hora"],
    "fr" := ["Texte_Référence", "Contexte", "Texte_A", "Texte_B", "Notes", "Horodatage"],
    "de" := ["Referenz_Text", "Kontext", "Text_A", "Text_B", "Notizen", "Zeitstempel"],
    "ja" := ["参照テキスト", "コンテキスト", "テキストA", "テキストB", "メモ", "タイムスタンプ"],
    "ko" := ["참조텍스트", "컨텍스트", "텍스트A", "텍스트B", "메모", "타임스탬프"],
    "ar" := ["النص_المرجعي", "السياق", "النص_أ", "النص_ب", "ملاحظات", "الطابع_الزمني"],
    "ru" := ["Исходный_Текст", "Контекст", "Текст_А", "Текст_Б", "Заметки", "Время"],
    "hi" := ["संदर्भ_पाठ", "संदर्भ", "पाठ_A", "पाठ_B", "टिप्पणियां", "समयचिह्न"],
    "zh" := ["参考文本", "上下文", "文本A", "文本B", "备注", "时间戳"],
    "zh-CN" := ["参考文本", "上下文", "文本A", "文本B", "备注", "时间戳"],
    "zh-TW" := ["參考文本", "上下文", "文本A", "文本B", "備註", "時間戳"]
  ]

  /**
   * `getLocalizedHeaders`: a listed language's six headers, the English ones
   * for any other language. A language naming an inherited object property is
   * not modelled (see the README).
   */
  function LocalizedHeaders(language: string): (r: seq<string>)
    ensures |r| == 6
    ensures language !in HeaderTranslations ==> r == EnglishHeaders
  {
    if language in HeaderTranslations then HeaderTranslations[language] else HeaderTranslations["en"]
  }

  /** The English headers, which every unknown language falls back to. */
  const EnglishHeaders: seq<string> := ["Reference_Text", "Context", "Text_A", "Text_B", "Notes", "Timestamp"]

  function ExportRow(record: ComparisonRecord): string
  {
    Join(EscapeAll(ExportValues(record)), ',')
  }

  /** One exported row per record, in order. */
  function ExportRows(records: seq<ComparisonRecord>): (r: seq<string>)
    ensures |r| == |records|
    ensures forall i :: 0 <= i < |records| ==> r[i] == ExportRow(records[i])
  {
    if records == [] then []
    else ExportRows(records[..|records| - 1]) + [ExportRow(records[|records| - 1])]
  }

  /** The rows of one record more. */
  lemma ExportRowsSnoc(records: seq<ComparisonRecord>, i: nat)
    requires i < |records|
    ensures ExportRows(records[..i + 1]) == ExportRows(records[..i]) + [ExportRow(records[i])]
  {
    assert records[..i + 1][..i] == records[..i];
  }

  /** The export's lines: the header row, then one row per record. */
  function ExportLines(records: seq<ComparisonRecord>, language: string): (r: seq<string>)
    ensures |r| == |records| + 1
  {
    [Join(LocalizedHeaders(language), ',')] + ExportRows(records)
  }

  /** `exportSmartCSV`. */
  function SmartExport(records: seq<ComparisonRecord>, language: string): string
  {
    Join(ExportLines(records, language), '\n')
  }

  lemma EscapedValues(vs: seq<string>)
    requires |vs| == 6
    ensures EscapeAll(vs) == [Escape(vs[0]), Escape(vs[1]), Escape(vs[2]), Escape(vs[3]), Escape(vs[4]), Escape(vs[5])]
  {
    SixOf(EscapeAll(vs), vs, Escape);
  }

  /** `exportSmartCSV`, with its row loop. */
  method ExportSmartCsv(records: seq<ComparisonRecord>, language: string) returns (csv: string)
    ensures csv == SmartExport(records, language)
  {
    var headers := LocalizedHeaders(language);
    var csvRows := [Join(headers, ',')];
    var i := 0;
    while i < |records|
      invariant 0 <= i <= |records|
      invariant csvRows == [Join(headers, ',')] + ExportRows(records[..i])
    {
      var record := records[i];
      var row := [
        Escape(record.referenceText),
        Escape(record.context),
        Escape(record.textA),
        Escape(record.textB),
        Escape(record.notes.GetOr("")),
        Escape(record.timestamp.GetOr(""))
      ];
      EscapedValues(ExportValues(record));
      ExportRowsSnoc(records, i);
      csvRows := csvRows + [Join(row, ',')];
      i := i + 1;
    }
    assert records[..i] == records;
    csv := Join(csvRows, '\n');
  }
}
