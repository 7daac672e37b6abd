/**
 * `mapCSVHeaders`: each header, in order, takes the unclaimed field whose
 * pattern scores highest (the first such on ties); a field is claimed once a
 * header maps to it with confidence above 0.6, and a header that reaches no
 * more than 0.6 is reported as notes.
 */
module HeaderMapping {
  import opened Records
  import opened FuzzyMatch

  /** The column-pattern dictionary: each field with its synonyms, in the source's order. */
  type PatternTable = seq<(Field, seq<string>)>

  datatype ColumnMapping = ColumnMapping(detected: string, mapped: Field, confidence: real, alternatives: seq<string>)

  /** A mapping is used, and its field claimed, only above this confidence. */
  const Threshold: real := 0.6

  /** The starting candidate for every header: notes, with confidence 0. */
  function Unmatched(header: string): ColumnMapping
  {
    ColumnMapping(header, Notes, 0.0, [])
  }

  /** `patterns.slice(0, 3)`. */
  function Alternatives(patterns: seq<string>): seq<string>
  {
    if |patterns| <= 3 then patterns else patterns[..3]
  }

  /** The candidate after trying the first `n` patterns of one field, from `best`; only a strictly higher score replaces it. */
  function BestInPatterns(header: string, field: Field, patterns: seq<string>, n: nat, best: ColumnMapping): (r: ColumnMapping)
    requires n <= |patterns|
    requires best.detected == header && 0.0 <= best.confidence <= 1.0
    ensures r.detected == header && best.confidence <= r.confidence <= 1.0
    ensures r == best || r.mapped == field
  {
    if n == 0 then best
    else
      var b := BestInPatterns(header, field, patterns, n - 1, best);
      var similarity := Similarity(header, patterns[n - 1]);
      if similarity > b.confidence then ColumnMapping(header, field, similarity, Alternatives(patterns)) else b
  }

  /** The candidate after the first `n` entries of the table, skipping claimed fields. */
  function BestInTable(header: string, table: PatternTable, used: set<Field>, n: nat): (r: ColumnMapping)
    requires n <= |table|
    ensures r.detected == header && 0.0 <= r.confidence <= 1.0
    ensures r == Unmatched(header) || r.mapped !in used
  {
    if n == 0 then Unmatched(header)
    else
      var b := BestInTable(header, table, used, n - 1);
      var entry := table[n - 1];
      if entry.0 in used then b else BestInPatterns(header, entry.0, entry.1, |entry.1|, b)
  }

  /** One header's mapping given the fields already claimed. */
  function MapHeader(header: string, table: PatternTable, used: set<Field>): ColumnMapping
  {
    var best := BestInTable(header, table, used, |table|);
    if best.confidence > Threshold then best else best.(mapped := Notes)
  }

  /** The claimed fields after a mapping: its field joins them only above the threshold. */
  function Claim(used: set<Field>, m: ColumnMapping): set<Field>
  {
    if m.confidence > Threshold then used + {m.mapped} else used
  }

  /** The mappings of `headers`, in order, starting from the claimed fields `used`. */
  function HeaderMappings(headers: seq<string>, table: PatternTable, used: set<Field>): (r: seq<ColumnMapping>)
    ensures |r| == |headers|
    ensures forall i :: 0 <= i < |r| ==> r[i].detected == headers[i]
  {
    if headers == [] then []
    else
      var m := MapHeader(headers[0], table, used);
      [m] + HeaderMappings(headers[1..], table, Claim(used, m))
  }

  /**
   * Every mapping lies in [0, 1] and reports notes at or below the threshold;
   * above it no mapping takes a field claimed before, so no field is taken twice.
   */
  lemma {:induction false} MappingsClaimOnce(headers: seq<string>, table: PatternTable, used: set<Field>)
    ensures var r := HeaderMappings(headers, table, used);
      && (forall i :: 0 <= i < |r| ==> 0.0 <= r[i].confidence <= 1.0)
      && (forall i :: 0 <= i < |r| && r[i].confidence <= Threshold ==> r[i].mapped == Notes)
      && (forall i :: 0 <= i < |r| && r[i].confidence > Threshold ==> r[i].mapped !in used)
      && (forall i, j :: 0 <= i < j < |r| && r[i].confidence > Threshold && r[j].confidence > Threshold ==>
            r[i].mapped != r[j].mapped)
  {
    if headers != [] {
      var m := MapHeader(headers[0], table, used);
      MappingsClaimOnce(headers[1..], table, Claim(used, m));
      var r := HeaderMappings(headers, table, used);
      assert r == [m] + HeaderMappings(headers[1..], table, Claim(used, m));
    }
  }

  lemma MappingsStep(headers: seq<string>, k: nat, table: PatternTable, used: set<Field>)
    requires k < |headers|
    ensures var m := MapHeader(headers[k], table, used);
      HeaderMappings(headers[k..], table, used) == [m] + HeaderMappings(headers[k + 1..], table, Claim(used, m))
  {
    assert headers[k..][1..] == headers[k + 1..];
  }

  /** Mapping header `k` extends the mappings of the headers before it. */
  lemma MappedPrefixStep(headers: seq<string>, k: nat, table: PatternTable, used: set<Field>, mappings: seq<ColumnMapping>)
    requires k < |headers|
    requires mappings + HeaderMappings(headers[k..], table, used) == HeaderMappings(headers, table, {})
    ensures var m := MapHeader(headers[k], table, used);
      (mappings + [m]) + HeaderMappings(headers[k + 1..], table, Claim(used, m)) == HeaderMappings(headers, table, {})
  {
    MappingsStep(headers, k, table, used);
  }

  /** `mapCSVHeaders`, with the `usedFields` set and the running `bestMatch`. */
  method MapCsvHeaders(headers: seq<string>, table: PatternTable) returns (mappings: seq<ColumnMapping>)
    ensures mappings == HeaderMappings(headers, table, {})
  {
    mappings := [];
    var usedFields: set<Field> := {};
    var k := 0;
    while k < |headers|
      invariant 0 <= k <= |headers|
      invariant mappings + HeaderMappings(headers[k..], table, usedFields) == HeaderMappings(headers, table, {})
    {
      var header := headers[k];
      var bestMatch := FindBestMatch(header, table, usedFields);
      ghost var old_used := usedFields;
      if bestMatch.confidence > Threshold {
        usedFields := usedFields + {bestMatch.mapped};
      } else {
        bestMatch := bestMatch.(mapped := Notes);
      }
      assert bestMatch == MapHeader(header, table, old_used);
      assert usedFields == Claim(old_used, bestMatch);
      MappedPrefixStep(headers, k, table, old_used, mappings);
      mappings := mappings + [bestMatch];
      k := k + 1;
    }
  }

  /** The two inner loops of `mapCSVHeaders`: every pattern of every unclaimed field, in order. */
  method FindBestMatch(header: string, table: PatternTable, usedFields: set<Field>) returns (bestMatch: ColumnMapping)
    ensures bestMatch == BestInTable(header, table, usedFields, |table|)
  {
    bestMatch := Unmatched(header);
    var e := 0;
    while e < |table|
      invariant 0 <= e <= |table|
      invariant bestMatch == BestInTable(header, table, usedFields, e)
    {
      var fieldName := table[e].0;
      var patterns := table[e].1;
      if fieldName !in usedFields {
        bestMatch := BestPattern(header, fieldName, patterns, bestMatch);
      }
      assert bestMatch == BestInTable(header, table, usedFields, e + 1);
      e := e + 1;
    }
  }

  /** The innermost loop of `mapCSVHeaders`: the patterns of one field, replacing `bestMatch` only on a strictly higher score. */
  method BestPattern(header: string, fieldName: Field, patterns: seq<string>, start: ColumnMapping) returns (bestMatch: ColumnMapping)
    requires start.detected == header && 0.0 <= start.confidence <= 1.0
    ensures bestMatch == BestInPatterns(header, fieldName, patterns, |patterns|, start)
  {
    bestMatch := start;
    var p := 0;
    while p < |patterns|
      invariant 0 <= p <= |patterns|
      invariant bestMatch == BestInPatterns(header, fieldName, patterns, p, start)
    {
      var similarity := Similarity(header, patterns[p]);
      if similarity > bestMatch.confidence {
        bestMatch := ColumnMapping(header, fieldName, similarity, Alternatives(patterns));
      }
      p := p + 1;
    }
  }

  ghost predicate Earlier(e': int, p': int, e: int, p: int)
  {
    e' < e || (e' == e && p' < p)
  }

  /**
   * `m` is the candidate built from pattern `p` of entry `e`, an unclaimed
   * field, and every unclaimed pattern before it in table order scores lower.
   */
  ghost predicate ChosenAt(header: string, table: PatternTable, used: set<Field>, m: ColumnMapping, e: int, p: int)
  {
    && 0 <= e < |table| && 0 <= p < |table[e].1| && table[e].0 !in used
    && m == ColumnMapping(header, table[e].0, Similarity(header, table[e].1[p]), Alternatives(table[e].1))
    && forall e', p' :: 0 <= e' < |table| && table[e'].0 !in used && 0 <= p' < |table[e'].1| && Earlier(e', p', e, p) ==>
         Similarity(header, table[e'].1[p']) < m.confidence
  }

  /** `r` is built from pattern `p`, beats `best`, and every pattern before `p` scores below it. */
  ghost predicate PatternChosenAt(header: string, field: Field, patterns: seq<string>, best: ColumnMapping, r: ColumnMapping, p: int)
  {
    && 0 <= p < |patterns|
    && r == ColumnMapping(header, field, Similarity(header, patterns[p]), Alternatives(patterns))
    && r.confidence > best.confidence
    && forall p' :: 0 <= p' < p ==> Similarity(header, patterns[p']) < r.confidence
  }

  /** `r` is `best` or the first of the first `n` patterns with the highest score, and none of them scores above it. */
  ghost predicate PatternMaxAfter(header: string, field: Field, patterns: seq<string>, n: nat, best: ColumnMapping, r: ColumnMapping)
    requires n <= |patterns|
  {
    && (forall p :: 0 <= p < n ==> Similarity(header, patterns[p]) <= r.confidence)
    && (r == best || exists p :: p < n && PatternChosenAt(header, field, patterns, best, r, p))
  }

  /** A candidate that pattern `n - 1` does not beat stays the first maximum. */
  lemma PatternKeeps(header: string, field: Field, patterns: seq<string>, n: nat, best: ColumnMapping, r: ColumnMapping)
    requires 0 < n <= |patterns| && PatternMaxAfter(header, field, patterns, n - 1, best, r)
    requires Similarity(header, patterns[n - 1]) <= r.confidence
    ensures PatternMaxAfter(header, field, patterns, n, best, r)
  {
    if r != best {
      var p :| p < n - 1 && PatternChosenAt(header, field, patterns, best, r, p);
      assert p < n;
    }
  }

  /** A candidate built from pattern `n - 1`, scoring above the previous maximum, is the new first maximum. */
  lemma PatternNew(header: string, field: Field, patterns: seq<string>, n: nat, best: ColumnMapping, prev: ColumnMapping, r: ColumnMapping)
    requires 0 < n <= |patterns| && PatternMaxAfter(header, field, patterns, n - 1, best, prev)
    requires best.confidence <= prev.confidence
    requires r == ColumnMapping(header, field, Similarity(header, patterns[n - 1]), Alternatives(patterns))
    requires r.confidence > prev.confidence
    ensures PatternMaxAfter(header, field, patterns, n, best, r)
  {
    assert PatternChosenAt(header, field, patterns, best, r, n - 1);
  }

  lemma {:induction false} BestInPatternsIsFirstMax(header: string, field: Field, patterns: seq<string>, n: nat, best: ColumnMapping)
    requires n <= |patterns|
    requires best.detected == header && 0.0 <= best.confidence <= 1.0
    ensures PatternMaxAfter(header, field, patterns, n, best, BestInPatterns(header, field, patterns, n, best))
  {
    if n > 0 {
      BestInPatternsIsFirstMax(header, field, patterns, n - 1, best);
      var prev := BestInPatterns(header, field, patterns, n - 1, best);
      var r := BestInPatterns(header, field, patterns, n, best);
      if r == prev {
        PatternKeeps(header, field, patterns, n, best, prev);
      } else {
        PatternNew(header, field, patterns, n, best, prev, r);
      }
    }
  }

  /**
   * `b` is the first pattern of highest score among the unclaimed fields of
   * the first `n` entries, or no match at all: no such pattern scores above
   * it, and unless it is the starting candidate it was built from one of them.
   */
  ghost predicate FirstMaxAfter(header: string, table: PatternTable, used: set<Field>, n: nat, b: ColumnMapping)
    requires n <= |table|
  {
    && (forall e, p :: 0 <= e < n && table[e].0 !in used && 0 <= p < |table[e].1| ==>
          Similarity(header, table[e].1[p]) <= b.confidence)
    && (b == Unmatched(header) || exists e, p :: e < n && ChosenAt(header, table, used, b, e, p))
  }

  /** A candidate that entry `n - 1` does not beat (claimed, or no pattern scoring higher) stays the first maximum. */
  lemma KeepsChoice(header: string, table: PatternTable, used: set<Field>, n: nat, b: ColumnMapping, patterns: seq<string>)
    requires 0 < n <= |table| && FirstMaxAfter(header, table, used, n - 1, b) && patterns == table[n - 1].1
    requires table[n - 1].0 !in used ==> forall p :: 0 <= p < |patterns| ==> Similarity(header, patterns[p]) <= b.confidence
    ensures FirstMaxAfter(header, table, used, n, b)
  {
    if b != Unmatched(header) {
      var e, p :| e < n - 1 && ChosenAt(header, table, used, b, e, p);
      assert e < n;
    }
  }

  /** A candidate built from the first pattern of entry `n - 1` that beats the previous maximum is the new first maximum. */
  lemma NewChoice(header: string, table: PatternTable, used: set<Field>, n: nat, prev: ColumnMapping, b: ColumnMapping,
                  patterns: seq<string>, p: nat)
    requires 0 < n <= |table| && FirstMaxAfter(header, table, used, n - 1, prev) && patterns == table[n - 1].1
    requires table[n - 1].0 !in used && p < |patterns|
    requires b == ColumnMapping(header, table[n - 1].0, Similarity(header, patterns[p]), Alternatives(patterns))
    requires b.confidence > prev.confidence
    requires forall p' :: 0 <= p' < p ==> Similarity(header, patterns[p']) < b.confidence
    requires forall p' :: 0 <= p' < |patterns| ==> Similarity(header, patterns[p']) <= b.confidence
    ensures FirstMaxAfter(header, table, used, n, b)
  {
    assert ChosenAt(header, table, used, b, n - 1, p);
  }

  /** After the first `n` entries the candidate is the first pattern of highest score among unclaimed fields, or no match at all. */
  lemma {:induction false} BestInTableIsFirstMax(header: string, table: PatternTable, used: set<Field>, n: nat)
    requires n <= |table|
    ensures FirstMaxAfter(header, table, used, n, BestInTable(header, table, used, n))
  {
    if n > 0 {
      BestInTableIsFirstMax(header, table, used, n - 1);
      var prev := BestInTable(header, table, used, n - 1);
      var b := BestInTable(header, table, used, n);
      var entry := table[n - 1];
      if entry.0 in used {
        KeepsChoice(header, table, used, n, prev, entry.1);
      } else {
        BestInPatternsIsFirstMax(header, entry.0, entry.1, |entry.1|, prev);
        if b == prev {
          KeepsChoice(header, table, used, n, prev, entry.1);
        } else {
          var p :| p < |entry.1| && PatternChosenAt(header, entry.0, entry.1, prev, b, p);
          NewChoice(header, table, used, n, prev, b, entry.1, p);
        }
      }
    }
  }

  /**
   * The mapping of one header: its confidence is the highest score over the
   * patterns of unclaimed fields; above 0.6 it names the field of the first
   * pattern reaching that score; otherwise the field reported is notes.
   */
  lemma MapHeaderIsGreedyFirstMax(header: string, table: PatternTable, used: set<Field>)
    ensures var m := MapHeader(header, table, used);
      && m.detected == header
      && (forall e, p :: 0 <= e < |table| && table[e].0 !in used && 0 <= p < |table[e].1| ==>
            Similarity(header, table[e].1[p]) <= m.confidence)
      && (m.confidence > Threshold ==> exists e, p :: ChosenAt(header, table, used, m, e, p))
      && (m.confidence <= Threshold ==> m.mapped == Notes)
  {
    BestInTableIsFirstMax(header, table, used, |table|);
  }
}
