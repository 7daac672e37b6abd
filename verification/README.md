# Text comparison utilities: CSV import/export and localization metrics

This project is a Dafny model of the three utility modules of the text
comparison client. They hold its algorithmic content. Each part below names
the Dafny modules that model it.

- **Smart CSV engine** (`client/src/utils/smartCSV.ts`):
  - **CsvLine**: the quote-aware line tokenizer `parseCSVLine` and the value escaper `escapeCSVValue`.
  - **FuzzyMatch**: header normalisation, the Levenshtein table, and `calculateSimilarity`.
  - **HeaderMapping**: `mapCSVHeaders`, the greedy header-to-field assignment with its 0.6 cut-off.
  - **SmartCsv**:
    - `detectSeparator`, which scores `, ; \t |` over the first three raw lines;
    - `parseSmartCSV`, which produces records, per-row errors and suggestions;
    - `exportSmartCSV` with the localized header table `getLocalizedHeaders`.
  - **SmartCsvRoundTrip**: proves that an English export of suitable records imports back as the same records.
- **Strict CSV handler** (`client/src/utils/csvHandler.ts`):
  - **CsvHandler**:
    - `parseCSV`: required columns, the synonym switch, and per-row errors;
    - its comma-only `parseCSVLine`;
    - `exportToCSV`;
    - its own `escapeCSVValue`, which does not quote `\r`.
  - **CsvHandlerRoundTrip**: proves `parseCSV(exportToCSV(records))`.
- **Localization metrics** (`client/src/utils/localizationMetrics.ts`):
  - **LocalizationMetrics**:
    - `detectScript` and `isRTLText`;
    - `calculateExpansionRate`;
    - `getTextMetrics`, including the `split(/\s+/)` word count;
    - `checkConstraints` with its info/warning/error tiers;
    - `getExpansionGuidelines`.
  - **Utf16**: the UTF-8 byte length `getByteLength` follows section 3 of RFC 3629. Text is a sequence of UTF-16 code units. A lone surrogate is encoded as U+FFFD, as the WHATWG Encoding Standard's `TextEncoder` does.

Shared modules:
- **Wrappers** defines `Option`.
- **JsString** holds the ECMAScript string operations the sources use: `trim` and its whitespace set, `split`, `join`, `includes`, ASCII `toLowerCase`, and the quote-doubling `replace`.
- **Records** holds the `TextComparisonRecord` both CSV modules build, and the per-row tally shared by both importers.

Every loop of the sources is a `method` with its invariants. Each method is proved equal to a specification function. For example, `ParseCsvLine` equals `Fields`, `LevenshteinDistance` equals `Lev`, `DetectSeparator` equals `SeparatorFor`, and `ParseSmartCsv` equals `SmartParse`. The lemmas state what the sources promise about those functions.

Where the code's behaviour is easy to misread, the model follows the code:
- `detectSeparator` samples the first three raw lines and only then drops blank ones.
- `detectScript` reports `None` only for the empty string. Whitespace- or punctuation-only text is `Mixed/Other`.
- A constraint is in force when its value is truthy, that is non-zero, so a negative limit still yields a check.
- `parseCSVLine` strips one leading and one trailing `"` after unquoting. A value that begins with a quote therefore does not survive export and import (`CsvLine.LeadingQuoteLost`).

## Model

| member | source | states |
|---|---|---|
| JsString.NonBlankIsTrimmedNonEmpty | client/src/utils/smartCSV.ts:265 | `line.trim()` is truthy exactly when the line has a non-whitespace character |
| JsString.Split | client/src/utils/smartCSV.ts:265 | `split(sep)` gives one more piece than there are separators, no piece holds the separator, and joining the pieces gives the text back |
| JsString.SplitJoin | client/src/utils/smartCSV.ts:431 | splitting a join of separator-free parts on that separator gives the parts back |
| JsString.NonBlankLinesKeepsAll | client/src/utils/smartCSV.ts:265 | the blank-line filter keeps every line of a text with no blank line |
| JsString.TrimEmpty | client/src/utils/localizationMetrics.ts:73 | `trim()` is empty exactly when every character is whitespace |
| Records.SetField | client/src/utils/csvHandler.ts:67-94 | assigning one record field changes that field only; id and timestamp are kept |
| Records.LastAssignmentWins | client/src/utils/csvHandler.ts:67-94 | after the column assignments of a row, each field holds the value of the last column assigned to it, or its starting value if none was |
| Records.Reimported | client/src/utils/smartCSV.ts:319-326 | a reimported record has the original's texts and notes, with a fresh id and timestamp |
| Records.HoldsExported | client/src/utils/smartCSV.ts:319-350 | a record read with the five exported values and a fresh id and timestamp is the reimport of the original |
| Records.TalliedCounts | client/src/utils/smartCSV.ts:314-358 | every row outcome is tallied exactly once, as a record or as an error, and every tallied record comes from an accepted row |
| Records.TalliedAccepted | client/src/utils/smartCSV.ts:308-359 | rows that are all accepted tally to their records in order and no errors |
| CsvLine.ParseCsvLine | client/src/utils/smartCSV.ts:386-412 | the character loop, with its quote state and its skip past a doubled quote, yields exactly the tokenizer's specified fields |
| CsvLine.FieldCount | client/src/utils/smartCSV.ts:386-412 | a line has one more field than it has separators outside quotes, so it always has at least one |
| CsvLine.SingleField | client/src/utils/smartCSV.ts:402-410 | a line without the separator is one field |
| CsvLine.ScanQuoted | client/src/utils/smartCSV.ts:395-401 | inside a quoted span each doubled quote reads as one literal quote, and the closing quote ends the span |
| CsvLine.QuoteFreeLine | client/src/utils/smartCSV.ts:402-411 | a line without quotes reads as the trimmed pieces of `split(sep)` |
| CsvLine.StripTrimmed | client/src/utils/smartCSV.ts:410-411 | every field is trimmed, then has one leading and one trailing quote removed |
| CsvLine.StripQuote | client/src/utils/smartCSV.ts:411 | a value without a surrounding quote is unchanged, and stripping never lengthens a value |
| CsvLine.Escape | client/src/utils/smartCSV.ts:457-466 | `''` stays `''`; a value is unchanged exactly when it holds none of `, " \n \r`; otherwise it is wrapped in quotes with every inner quote doubled |
| CsvLine.EscapeIsWritten | client/src/utils/smartCSV.ts:457-466 | an escaped value is read by the tokenizer as the value itself |
| CsvLine.ScanJoined | client/src/utils/smartCSV.ts:386-412 | a row of written values joined by the separator scans into exactly those values |
| CsvLine.FieldsOfJoined | client/src/utils/smartCSV.ts:386-412 | such a row parses as the values, trimmed and quote-stripped |
| CsvLine.EscapedRowRoundTrip | client/src/utils/smartCSV.ts:420-428 | a row of escaped values joined by commas parses back as the values, trimmed and quote-stripped |
| CsvLine.LeadingQuoteLost | client/src/utils/smartCSV.ts:411 | a value beginning with its only quote is escaped and then read back without that quote |
| FuzzyMatch.Normalize | client/src/utils/smartCSV.ts:146 | the normal form holds only `[a-z0-9]` and is no longer than the input |
| FuzzyMatch.NormalizeAppend | client/src/utils/smartCSV.ts:146 | normalising works character by character: it distributes over concatenation |
| FuzzyMatch.CellStep | client/src/utils/smartCSV.ts:167-175 | each inner cell of the table is the minimum of insertion, deletion and substitution from its neighbours |
| FuzzyMatch.LevenshteinDistance | client/src/utils/smartCSV.ts:161-179 | the table filled row by row ends with the edit distance `Lev` of the two strings |
| FuzzyMatch.LevSelf | client/src/utils/smartCSV.ts:161-179 | the distance of a string to itself is 0 |
| FuzzyMatch.LevSymmetric | client/src/utils/smartCSV.ts:161-179 | the distance is symmetric |
| FuzzyMatch.LevBounds | client/src/utils/smartCSV.ts:161-179 | the distance is at least the length difference and at most the longer length |
| FuzzyMatch.LevZeroIffEqual | client/src/utils/smartCSV.ts:161-179 | the distance is 0 exactly when the strings are equal |
| FuzzyMatch.Similarity | client/src/utils/smartCSV.ts:145-159 | the score is in [0, 1], is 1 exactly when the normal forms are equal, and is 0.8 when they differ and one contains the other |
| FuzzyMatch.SimilarityByDistance | client/src/utils/smartCSV.ts:153-158 | otherwise the longer normal form is non-empty and the score is `1 - lev/maxLen` |
| FuzzyMatch.EmptyNormalisationScore | client/src/utils/smartCSV.ts:151 | a header that normalises to nothing scores 0.8 against every pattern that does not |
| FuzzyMatch.SimilaritySymmetric | client/src/utils/smartCSV.ts:145-159 | the score does not depend on argument order |
| HeaderMapping.BestInPatterns | client/src/utils/smartCSV.ts:198-209 | scanning one field's patterns never lowers the confidence, and any change makes that field the mapped one |
| HeaderMapping.BestInTable | client/src/utils/smartCSV.ts:194-210 | the best match for a header is the unmatched default or a field not yet claimed, with confidence in [0, 1] |
| HeaderMapping.HeaderMappings | client/src/utils/smartCSV.ts:186-221 | exactly one mapping per header, in header order, each detecting its own header |
| HeaderMapping.MappingsClaimOnce | client/src/utils/smartCSV.ts:184-218 | confidences lie in [0, 1]; at or below 0.6 the column maps to notes; above it the field was unclaimed, and no field is taken by two columns |
| HeaderMapping.BestPattern | client/src/utils/smartCSV.ts:198-209 | the pattern loop computes `BestInPatterns` |
| HeaderMapping.FindBestMatch | client/src/utils/smartCSV.ts:187-210 | the field loop, skipping claimed fields, computes `BestInTable` |
| HeaderMapping.MapCsvHeaders | client/src/utils/smartCSV.ts:182-224 | the header loop, with its growing set of claimed fields, computes `HeaderMappings` |
| HeaderMapping.BestInPatternsIsFirstMax | client/src/utils/smartCSV.ts:198-209 | the result is the first pattern of maximal score, because only a strictly better score replaces the current best |
| HeaderMapping.BestInTableIsFirstMax | client/src/utils/smartCSV.ts:194-210 | over the unclaimed fields, the result is the earliest (field, pattern) of maximal score |
| HeaderMapping.MapHeaderIsGreedyFirstMax | client/src/utils/smartCSV.ts:186-218 | a header's confidence bounds every pattern of every unclaimed field; above 0.6 it is the first such pattern to reach it; otherwise the column maps to notes |
| SmartCsv.SampleLines | client/src/utils/smartCSV.ts:228 | at most three lines are sampled |
| SmartCsv.FirstMax | client/src/utils/smartCSV.ts:259-260 | the winning index has the highest score, and every earlier index scores strictly less |
| SmartCsv.SeparatorFor | client/src/utils/smartCSV.ts:227-261 | the separator is one of `, ; \t |`, and a comma when the first three lines are blank |
| SmartCsv.SeparatorIsBest | client/src/utils/smartCSV.ts:231-260 | the separator has the highest score (field count plus 10 per line matching the first line's count above 1), the earliest one winning ties |
| SmartCsv.SeparatorScore | client/src/utils/smartCSV.ts:234-255 | the per-line loop adds up to the separator's score |
| SmartCsv.TopScore | client/src/utils/smartCSV.ts:259-260 | the search for the highest score returns the first maximum |
| SmartCsv.DetectSeparator | client/src/utils/smartCSV.ts:227-261 | the method computes `SeparatorFor` |
| SmartCsv.LowConfidenceColumns | client/src/utils/smartCSV.ts:362-365 | no column is listed exactly when every confidence is at least 0.8 |
| SmartCsv.ParseRow | client/src/utils/smartCSV.ts:309-358 | an accepted row has text A or text B; a rejected row has a column-count or no-text error |
| SmartCsv.RowOutcomes | client/src/utils/smartCSV.ts:308-359 | at most one outcome per data line |
| SmartCsv.OutcomesSnoc | client/src/utils/smartCSV.ts:308-359 | a non-blank data line adds its own outcome after those of the earlier lines |
| SmartCsv.EveryRowAccounted | client/src/utils/smartCSV.ts:308-359 | with no blank line, every data line has exactly one outcome |
| SmartCsv.RowsHaveText | client/src/utils/smartCSV.ts:352-358 | the tally keeps only records with a text, and counts one record or error per outcome |
| SmartCsv.ReadLines | client/src/utils/smartCSV.ts:277-383 | success holds exactly when there is no error; every record has a text; records exist only with a text column mapped above 0.6 |
| SmartCsv.SmartParse | client/src/utils/smartCSV.ts:264-383 | the same three facts for any content |
| SmartCsv.ImportOutcome | client/src/utils/smartCSV.ts:265-302 | fewer than two non-blank lines is a single error with no records; with a text column, records plus errors equal the data lines; success means one record per data line |
| SmartCsv.RowRecordFields | client/src/utils/smartCSV.ts:329-350 | each field holds the trimmed value of the column mapped to it above 0.6, and keeps its starting value if none is |
| SmartCsv.ParseSmartCsv | client/src/utils/smartCSV.ts:264-383 | the method computes `SmartParse` |
| SmartCsv.ImportLines | client/src/utils/smartCSV.ts:277-383 | the method computes `ReadLines` |
| SmartCsv.ParseDataRows | client/src/utils/smartCSV.ts:305-359 | the row loop yields the records and errors of `DataRows` |
| SmartCsv.ParseDataLine | client/src/utils/smartCSV.ts:309-358 | one iteration computes `ParseRow` |
| SmartCsv.ApplyMapping | client/src/utils/smartCSV.ts:319-350 | the `forEach` over the mapping builds the record of `RowAssignments` applied to a fresh record |
| SmartCsv.LocalizedHeaders | client/src/utils/smartCSV.ts:435-454 | six headers; a language that is not a key of the table gets the English ones (inherited property names: see Left out) |
| SmartCsv.ExportRows | client/src/utils/smartCSV.ts:419-429 | one row per record, in order |
| SmartCsv.ExportLines | client/src/utils/smartCSV.ts:415-432 | the header row and then one line per record |
| SmartCsv.ExportSmartCsv | client/src/utils/smartCSV.ts:415-432 | the method computes `SmartExport` |
| SmartCsvRoundTrip.RowReadsBack | client/src/utils/smartCSV.ts:420-428 | an exported row of an exportable record reads back as its six values |
| SmartCsvRoundTrip.RowShape | client/src/utils/smartCSV.ts:420-428 | such a row is non-blank and holds no newline, `;`, tab or `|` |
| SmartCsvRoundTrip.HeaderRowShape | client/src/utils/smartCSV.ts:437 | the English header row is a non-blank comma line with no other candidate separator |
| SmartCsvRoundTrip.HeaderRowReadsBack | client/src/utils/smartCSV.ts:437 | the English header row reads back as the six English headers |
| SmartCsvRoundTrip.EnglishIsLocalized | client/src/utils/smartCSV.ts:437 | `en` gives the English headers |
| SmartCsvRoundTrip.HeaderTakesItsField | client/src/utils/smartCSV.ts:186-218 | with the earlier fields claimed, each of the first five English headers takes its own field with confidence 1 |
| SmartCsvRoundTrip.SixthUnmapped | client/src/utils/smartCSV.ts:213-218 | once all five fields are claimed, the timestamp column stays at or below 0.6 |
| SmartCsvRoundTrip.HeadersMapInOrder | client/src/utils/smartCSV.ts:182-224 | the English headers map to referenceText, context, textA, textB and notes, with the timestamp column ignored |
| SmartCsvRoundTrip.CommaOutscores | client/src/utils/smartCSV.ts:234-260 | over comma lines, the comma wins the separator scoring |
| SmartCsvRoundTrip.CommaDetected | client/src/utils/smartCSV.ts:227-261 | text made of comma lines has the comma detected and reads back as its lines |
| SmartCsvRoundTrip.ColumnPatternsCanonical | client/src/utils/smartCSV.ts:29-142 | in the column-pattern table, each field has a pattern its English header matches exactly |
| SmartCsvRoundTrip.ValuesFillRecord | client/src/utils/smartCSV.ts:329-350 | the English mapping applied to an exported row rebuilds the reimported record |
| SmartCsvRoundTrip.RowsImport | client/src/utils/smartCSV.ts:308-359 | the exported rows of exportable records import as those records with no errors |
| SmartCsvRoundTrip.RoundTripWith | client/src/utils/smartCSV.ts:264-432 | for any table laid out like the column patterns, importing an English export succeeds with the comma and gives back the records |
| SmartCsvRoundTrip.ExportThenImport | client/src/utils/smartCSV.ts:415-432 | `parseSmartCSV(exportSmartCSV(records, 'en'))` succeeds with the comma and gives back the records, for exportable records |
| CsvHandler.ParseCommaLine | client/src/utils/csvHandler.ts:113-141 | the handler's tokenizer gives the smart tokenizer's fields for `,`: one more than the commas outside quotes |
| CsvHandler.HeaderName | client/src/utils/csvHandler.ts:31 | a normalised header name has no quotes and is no longer than its cell |
| CsvHandler.HeaderNames | client/src/utils/csvHandler.ts:31 | one name per comma-separated cell, each normalised |
| CsvHandler.Missing | client/src/utils/csvHandler.ts:32-33 | exactly the required names absent from the header, and none exactly when all are present |
| CsvHandler.ColumnNames | client/src/utils/csvHandler.ts:67-94 | each field is chosen by exactly its listed synonyms, and every other name selects nothing |
| CsvHandler.RequiredColumnsFill | client/src/utils/csvHandler.ts:32 | the four required columns select referenceText, context, textA and textB |
| CsvHandler.ParseRow | client/src/utils/csvHandler.ts:50-102 | an accepted row has text A or text B; a rejected row has a column-count or missing-text error |
| CsvHandler.RowOutcomes | client/src/utils/csvHandler.ts:46-103 | exactly one outcome per data line |
| CsvHandler.TallyAccounts | client/src/utils/csvHandler.ts:96-102 | the tally keeps only records with a text, keeps only row errors, and counts one record or error per outcome |
| CsvHandler.EveryRowAccounted | client/src/utils/csvHandler.ts:46-103 | records plus errors equal the data lines, and every record has a text |
| CsvHandler.ParseCsv | client/src/utils/csvHandler.ts:20-110 | valid holds exactly when there is no error, and every record has a text |
| CsvHandler.ImportOutcome | client/src/utils/csvHandler.ts:21-41 | fewer than two non-blank lines, or missing columns, is one error listing exactly the missing names, with no records; otherwise records plus errors equal the data lines |
| CsvHandler.RowRecordFields | client/src/utils/csvHandler.ts:67-94 | a field holds the value of the last column that selects it, and keeps its starting value if none does |
| CsvHandler.ParseCsvContent | client/src/utils/csvHandler.ts:20-110 | the method computes `ParseCsv` |
| CsvHandler.ParseDataRows | client/src/utils/csvHandler.ts:43-103 | the row loop yields the records and errors of `DataRows` |
| CsvHandler.ParseDataLine | client/src/utils/csvHandler.ts:47-102 | one iteration computes `ParseRow` |
| CsvHandler.ApplyColumns | client/src/utils/csvHandler.ts:57-94 | the `forEach` over the header builds the record of `ColumnAssignments` applied to a fresh record |
| CsvHandler.EscapeValue | client/src/utils/csvHandler.ts:172-181 | `''` stays `''`, and a value is unchanged exactly when it holds none of `, " \n` |
| CsvHandler.EscapeValueIsWritten | client/src/utils/csvHandler.ts:172-181 | an escaped value is read by the tokenizer as the value itself |
| CsvHandler.EscapersAgree | client/src/utils/csvHandler.ts:176 | the two escapers differ exactly on values with a carriage return and nothing else that needs quoting |
| CsvHandler.ExportRows | client/src/utils/csvHandler.ts:156-166 | one row per record, in order |
| CsvHandler.ExportToCsv | client/src/utils/csvHandler.ts:144-169 | the method computes `ExportCsv` |
| CsvHandler.ExportRowReadsBack | client/src/utils/csvHandler.ts:157-165 | an exported row parses as its six values, trimmed and quote-stripped |
| CsvHandlerRoundTrip.HeaderRowNames | client/src/utils/csvHandler.ts:145-154 | the exported header row normalises to the six lower-case column names |
| CsvHandlerRoundTrip.NothingMissing | client/src/utils/csvHandler.ts:32-33 | the exported header has every required column |
| CsvHandlerRoundTrip.ColumnFills | client/src/utils/csvHandler.ts:67-94 | under the exported header, column `e` fills field `e` |
| CsvHandlerRoundTrip.ValuesFillRecord | client/src/utils/csvHandler.ts:57-94 | the exported values under the exported header rebuild the reimported record |
| CsvHandlerRoundTrip.RowAccepted | client/src/utils/csvHandler.ts:50-102 | a line reading as a record's values is accepted as that record reimported |
| CsvHandlerRoundTrip.RowsParse | client/src/utils/csvHandler.ts:46-103 | the exported rows parse as the reimported records with no errors |
| CsvHandlerRoundTrip.LinesParse | client/src/utils/csvHandler.ts:20-110 | lines with a complete header and error-free rows are a valid import of those rows |
| CsvHandlerRoundTrip.RowsThenParse | client/src/utils/csvHandler.ts:20-110 | a header row with the exported names followed by exported rows is a valid import of the records |
| CsvHandlerRoundTrip.ExportThenParse | client/src/utils/csvHandler.ts:144-169 | `parseCSV(exportToCSV(records))` is valid and gives back the records, notes included, for records whose values survive |
| CsvHandlerRoundTrip.EmptyExportRejected | client/src/utils/csvHandler.ts:23-29 | exporting no records gives a header-only file, which imports as the too-few-lines error |
| Utf16.CodePoints | client/src/utils/localizationMetrics.ts:30 | a string has no more code points than code units, each at most U+10FFFF |
| Utf16.CodePointsRoundTrip | client/src/utils/localizationMetrics.ts:30 | re-encoding the code points as UTF-16 gives the string back |
| Utf16.ScalarOf | client/src/utils/localizationMetrics.ts:22 | the encoder sees a scalar value: a lone surrogate becomes U+FFFD, and any other code point is unchanged |
| Utf16.EncodeScalar | client/src/utils/localizationMetrics.ts:22 | a scalar value takes 1, 2, 3 or 4 bytes by its range |
| Utf16.EncodeScalarDecodes | client/src/utils/localizationMetrics.ts:22 | the bytes of a scalar value form a well-formed UTF-8 sequence that decodes to it |
| Utf16.ByteLengthBounds | client/src/utils/localizationMetrics.ts:21-23 | the byte length lies between the code-unit length and three times it, and equals it exactly when every unit is ASCII |
| LocalizationMetrics.CleanText | client/src/utils/localizationMetrics.ts:30 | deleting whitespace and punctuation never lengthens the text |
| LocalizationMetrics.Kept | client/src/utils/localizationMetrics.ts:30 | what is left are code points of the input that are neither whitespace nor punctuation |
| LocalizationMetrics.CleanKeepsCodePoints | client/src/utils/localizationMetrics.ts:30 | for text without lone surrogates, the cleaned text's code points are the input's code points that are kept, in order |
| LocalizationMetrics.FirstScript | client/src/utils/localizationMetrics.ts:46-52 | the scan over the scripts reports a script or `Mixed/Other`, never `None` |
| LocalizationMetrics.FirstScriptIsFirst | client/src/utils/localizationMetrics.ts:46-52 | the reported script is the first in order that occurs, and `Mixed/Other` means none occurs |
| LocalizationMetrics.ScriptOf | client/src/utils/localizationMetrics.ts:26-53 | `None` is reported exactly for the empty string |
| LocalizationMetrics.ScriptOfIsFirst | client/src/utils/localizationMetrics.ts:26-53 | for non-empty text, the script is the first of Latin … Thai with a code point left after cleaning, else `Mixed/Other` |
| LocalizationMetrics.DetectScript | client/src/utils/localizationMetrics.ts:26-53 | the loop with its early return computes `ScriptOf` |
| LocalizationMetrics.BlankIsMixed | client/src/utils/localizationMetrics.ts:27-52 | non-empty whitespace-only text is `Mixed/Other`, not `None` |
| LocalizationMetrics.RtlScriptIsRtl | client/src/utils/localizationMetrics.ts:56-59 | text without lone surrogates detected as Arabic or Hebrew is right-to-left |
| LocalizationMetrics.ExpansionRate | client/src/utils/localizationMetrics.ts:62-67 | 0 for an empty source; otherwise `100·(t−s)/s` rounded to the nearest integer, halves upwards |
| LocalizationMetrics.ExpansionSign | client/src/utils/localizationMetrics.ts:62-67 | the rate is 0 for equal lengths, positive only when the translation is longer, negative only when it is shorter, and never below -100 |
| LocalizationMetrics.SplitOnSpaces | client/src/utils/localizationMetrics.ts:73 | `split(/\s+/)` gives at least one piece, and no piece holds whitespace |
| LocalizationMetrics.StartsIgnoreTrim | client/src/utils/localizationMetrics.ts:73 | trimming does not change the number of word starts |
| LocalizationMetrics.SplitCountsStarts | client/src/utils/localizationMetrics.ts:73 | the pieces of a text not starting with whitespace are its word starts, plus one for empty or trailing-whitespace text |
| LocalizationMetrics.WordsAreStarts | client/src/utils/localizationMetrics.ts:73 | the word count is the number of non-whitespace characters that follow whitespace or the start, so at most the length |
| LocalizationMetrics.WordsBlank | client/src/utils/localizationMetrics.ts:73 | the word count is 0 exactly for empty or whitespace-only text |
| LocalizationMetrics.GetTextMetrics | client/src/utils/localizationMetrics.ts:70-86 | characters is the code-unit length; the byte, word, script and empty-source rate facts above hold of the result |
| LocalizationMetrics.MakeCheck | client/src/utils/localizationMetrics.ts:95-101 | a check passes exactly when within the limit; it is an error exactly when it fails, a warning exactly when it passes above 90% of the limit, and information otherwise |
| LocalizationMetrics.ChecksCoverKeys | client/src/utils/localizationMetrics.ts:89-129 | at most three checks, one for each key in force |
| LocalizationMetrics.ChecksInOrder | client/src/utils/localizationMetrics.ts:89-129 | checks come in the order sms, characters, uiMobile |
| LocalizationMetrics.ChecksMeasure | client/src/utils/localizationMetrics.ts:89-129 | every check is graded, uses its key's value as the limit, and measures its own quantity |
| LocalizationMetrics.CheckConstraints | client/src/utils/localizationMetrics.ts:89-129 | one check per key in force, in order: sms measures UTF-8 bytes, characters measures code units, uiMobile measures the width estimate |
| LocalizationMetrics.OnlyThreeKeys | client/src/utils/localizationMetrics.ts:94-116 | constraint objects that agree on sms, characters and uiMobile give the same checks; other keys and zero limits are ignored |
| LocalizationMetrics.CjkScripts | client/src/utils/localizationMetrics.ts:117-118 | the width doubles exactly for text detected as Han, Hiragana or Katakana |
| LocalizationMetrics.ExpansionGuidelines | client/src/utils/localizationMetrics.ts:132-143 | every guideline returned satisfies `min <= typical <= max` |
| LocalizationMetrics.LatinPairs | client/src/utils/localizationMetrics.ts:133-137 | the four listed Latin pairs give their table entries |
| LocalizationMetrics.ListedKeySplits | client/src/utils/localizationMetrics.ts:132-142 | a listed key `Latin-to-x` arises from `source-to-target` only for source Latin and target x |
| LocalizationMetrics.OtherPairsDefault | client/src/utils/localizationMetrics.ts:132-142 | any pair of script names other than the four Latin pairs gives the default entry |
| LocalizationMetrics.LabelHasNoHyphen | client/src/utils/localizationMetrics.ts:48-52 | no label `detectScript` reports contains a hyphen |

## Left out

- I/O and nondeterminism. The ids from `generateId` and the timestamps from `new Date().toISOString()` are a parameter, `stamp: nat -> Stamp`. Records carry whatever it gives and nothing compares them.
- The Unicode character database. `\p{Script=…}` and `\p{P}` are the parameter `UnicodeTables`. `\s` and `trim` use the ECMAScript whitespace set, written out.
- `toLowerCase` is ASCII lower-casing. Non-ASCII letters keep their case in `normalize` and in `parseCSV`'s header names.
- Error messages and suggestions are datatypes carrying their numbers, not their English wording.
- SmartCsv.LocalizedHeaders: a language that names an inherited object property ("constructor", "toString", "valueOf", "hasOwnProperty", "__proto__", …) finds that property in the source's `headerTranslations[language] || headerTranslations['en']` (`client/src/utils/smartCSV.ts:453`). The value is truthy but not an array, so there is no English fallback and `exportSmartCSV` throws a TypeError at `headers.join` (`client/src/utils/smartCSV.ts:417`). The model gives such a language the English headers.
- The column-pattern table is a parameter of `SmartCsv.SmartParse`. The round trip is proved for any table laid out like `COLUMN_PATTERNS` (`SmartCsvRoundTrip.RoundTripWith`), then instantiated with the full table.
- LocalizationMetrics.ExpansionRate: computed with exact rationals. The source divides and multiplies in double precision, so at an exact .5 boundary its `Math.round` may land on the other integer.
- FuzzyMatch.Similarity: scores are exact reals. The source computes `1 - distance / maxLen` in double precision and compares it with 0.6 (`client/src/utils/smartCSV.ts:213`) and 0.8 (`client/src/utils/smartCSV.ts:362`). For strings of header length the rounding changes no comparison.
- LocalizationMetrics.MakeCheck: limits and measurements are integers compared exactly. A non-integer or NaN limit from a caller is not modelled, and `limit * 0.9` is `9·limit < 10·current`.
- LocalizationMetrics.ScriptOf: the cleaned text is re-read as code points. Two lone surrogates separated only by removed characters join into a pair there, as they do in the source. The lemmas about the cleaned text therefore assume text without lone surrogates.
- LocalizationMetrics.IsRtlText has no lemma of its own beyond `RtlScriptIsRtl`. Its definition is the source's test itself.
- CsvHandler.ParseCommaLine reuses the smart tokenizer's character loop with `,`. The two source loops are the same code apart from the separator.
- CsvHandlerRoundTrip.ExportThenParse: records come back with `notes` present (`Some`), the empty string when the original had none, and with a fresh id and timestamp.
- CsvHandler.RowOutcomes leaves out the blank-line check inside `parseCSV`'s row loop (`client/src/utils/csvHandler.ts:48`). It cannot fire, because blank lines were filtered out before the loop. The same check in `parseSmartCSV` (`client/src/utils/smartCSV.ts:310`) is modelled.
- `generateSampleCSV` (`client/src/utils/csvHandler.ts:189-215`) is a fixed call of `exportToCSV` and is not part of this model.
- The React components, the diff view, the byte-order mark added on download, and configuration code are not part of this model.
