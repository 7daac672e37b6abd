/**
 * The comparison record shared by both CSV importers and exporters, and the
 * field-by-field assignment both importers use to fill one in from a row.
 */
module Records {
  import opened Wrappers

  /** The record keys a CSV column can be mapped to, in the order the source lists them. */
  datatype Field = ReferenceText | Context | TextA | TextB | Notes

  /**
   * A saved or imported comparison. `id` and `timestamp` are generated by the
   * importer from the clock and a random source; here they arrive as a `Stamp`.
   */
  datatype ComparisonRecord = ComparisonRecord(
    id: Option<string>,
    referenceText: string,
    context: string,
    textA: string,
    textB: string,
    notes: Option<string>,
    timestamp: Option<string>)

  /** The generated identity of one imported record (opaque; never compared). */
  datatype Stamp = Stamp(id: string, time: string)

  /** The record an importer starts a row from: all texts empty, no notes. */
  function FreshRecord(stamp: Stamp): (r: ComparisonRecord)
  {
    ComparisonRecord(Some(stamp.id), "", "", "", "", None, Some(stamp.time))
  }

  /** The value a field holds; `None` only for notes that were never set. */
  function Get(r: ComparisonRecord, f: Field): Option<string>
  {
    match f
    case ReferenceText => Some(r.referenceText)
    case Context => Some(r.context)
    case TextA => Some(r.textA)
    case TextB => Some(r.textB)
    case Notes => r.notes
  }

  /** `record[field] = value`. */
  function SetField(r: ComparisonRecord, f: Field, v: string): (r': ComparisonRecord)
    ensures Get(r', f) == Some(v)
    ensures forall g :: g != f ==> Get(r', g) == Get(r, g)
    ensures r'.id == r.id && r'.timestamp == r.timestamp
  {
    match f
    case ReferenceText => r.(referenceText := v)
    case Context => r.(context := v)
    case TextA => r.(textA := v)
    case TextB => r.(textB := v)
    case Notes => r.(notes := Some(v))
  }

  /** One column's contribution to a record: the field it fills, if any, and the value. */
  type Assignment = (Option<Field>, string)

  /** The record after performing `steps` in order, each one a `SetField` or nothing. */
  function Assign(r: ComparisonRecord, steps: seq<Assignment>): ComparisonRecord
  {
    if steps == [] then r
    else
      var prev := Assign(r, steps[..|steps| - 1]);
      var last := steps[|steps| - 1];
      if last.0.Some? then SetField(prev, last.0.value, last.1) else prev
  }

  /** Index of the last assignment to `f` in `steps`, or -1 when there is none. */
  function LastFor(steps: seq<Assignment>, f: Field): (k: int)
    ensures -1 <= k < |steps|
    ensures k >= 0 ==> steps[k].0 == Some(f)
    ensures forall j :: k < j < |steps| ==> steps[j].0 != Some(f)
  {
    if steps == [] then -1
    else if steps[|steps| - 1].0 == Some(f) then |steps| - 1
    else LastFor(steps[..|steps| - 1], f)
  }

  /**
   * Later columns overwrite earlier ones: a field ends up with the value of the
   * last assignment to it, and keeps its starting value when nothing assigns it.
   */
  lemma {:induction false} LastAssignmentWins(r: ComparisonRecord, steps: seq<Assignment>, f: Field)
    ensures Get(Assign(r, steps), f) == if LastFor(steps, f) < 0 then Get(r, f) else Some(steps[LastFor(steps, f)].1)
    ensures Assign(r, steps).id == r.id && Assign(r, steps).timestamp == r.timestamp
  {
    if steps != [] {
      var init := steps[..|steps| - 1];
      LastAssignmentWins(r, init, f);
      if steps[|steps| - 1].0 != Some(f) {
        assert LastFor(steps, f) == LastFor(init, f);
        if LastFor(init, f) >= 0 {
          assert steps[LastFor(init, f)] == init[LastFor(init, f)];
        }
      }
    }
  }

  /** The six values both exporters write for a record, in column order; missing notes and timestamp become empty. */
  function ExportValues(record: ComparisonRecord): (r: seq<string>)
    ensures |r| == 6
  {
    [record.referenceText, record.context, record.textA, record.textB, record.notes.GetOr(""), record.timestamp.GetOr("")]
  }

  /** The five texts of a record, the part an export/import round trip preserves. */
  datatype Content = Content(referenceText: string, context: string, textA: string, textB: string, notes: string)

  function ContentOf(r: ComparisonRecord): Content
  {
    Content(r.referenceText, r.context, r.textA, r.textB, r.notes.GetOr(""))
  }

  /** The record an import makes of an exported record: its texts, its notes or "", and the generated identity. */
  function Reimported(record: ComparisonRecord, stamp: Stamp): (r: ComparisonRecord)
    ensures ContentOf(r) == ContentOf(record)
    ensures r.id == Some(stamp.id) && r.timestamp == Some(stamp.time)
  {
    ComparisonRecord(Some(stamp.id), record.referenceText, record.context, record.textA, record.textB,
                     Some(record.notes.GetOr("")), Some(stamp.time))
  }

  /** A record holding the five exported texts of `record`, and the identity and time of `stamp`, is `record` reimported. */
  lemma HoldsExported(read: ComparisonRecord, record: ComparisonRecord, stamp: Stamp)
    requires Get(read, ReferenceText) == Some(ExportValues(record)[0]) && Get(read, Context) == Some(ExportValues(record)[1])
    requires Get(read, TextA) == Some(ExportValues(record)[2]) && Get(read, TextB) == Some(ExportValues(record)[3])
    requires Get(read, Notes) == Some(ExportValues(record)[4])
    requires read.id == Some(stamp.id) && read.timestamp == Some(stamp.time)
    ensures read == Reimported(record, stamp)
  {
  }

  /** The records of `records` reimported, record `i` with the identity generated for line `i + 1`. */
  function ReimportedAll(records: seq<ComparisonRecord>, stamp: nat -> Stamp): (r: seq<ComparisonRecord>)
    ensures |r| == |records|
    ensures forall i :: 0 <= i < |records| ==> r[i] == Reimported(records[i], stamp(i + 1))
  {
    seq(|records|, i requires 0 <= i < |records| => Reimported(records[i], stamp(i + 1)))
  }

  // ---------------------------------------------------------------------------
  // Tallying data rows

  /** What an importer makes of one data line: a record, or an error of type `E`. */
  datatype RowOutcome<E> = Accepted(record: ComparisonRecord) | Rejected(error: E)

  /** A record is pushed onto the records, an error onto the errors. */
  function Tally<E>(acc: (seq<ComparisonRecord>, seq<E>), outcome: RowOutcome<E>): (r: (seq<ComparisonRecord>, seq<E>))
    ensures outcome.Accepted? ==> r == (acc.0 + [outcome.record], acc.1)
    ensures outcome.Rejected? ==> r == (acc.0, acc.1 + [outcome.error])
  {
    match outcome
    case Accepted(record) => (acc.0 + [record], acc.1)
    case Rejected(error) => (acc.0, acc.1 + [error])
  }

  /** The records and errors of a sequence of row outcomes, tallied in order. */
  function Tallied<E>(outcomes: seq<RowOutcome<E>>): (r: (seq<ComparisonRecord>, seq<E>))
  {
    if outcomes == [] then ([], [])
    else Tally(Tallied(outcomes[..|outcomes| - 1]), outcomes[|outcomes| - 1])
  }

  lemma TalliedSnoc<E>(outcomes: seq<RowOutcome<E>>, outcome: RowOutcome<E>)
    ensures Tallied(outcomes + [outcome]) == Tally(Tallied(outcomes), outcome)
  {
    assert (outcomes + [outcome])[..|outcomes|] == outcomes;
  }

  /** Appending the acceptance of record `m` to the acceptances of records `0..m` gives the acceptances of records `0..m+1`. */
  lemma AcceptedSnoc<E>(prev: seq<RowOutcome<E>>, outcome: RowOutcome<E>, records: seq<ComparisonRecord>, m: nat)
    requires |prev| == m < |records|
    requires forall k :: 0 <= k < m ==> prev[k] == Accepted(records[k])
    requires outcome == Accepted(records[m])
    ensures forall k :: 0 <= k < m + 1 ==> (prev + [outcome])[k] == Accepted(records[k])
  {
  }

  /** Outcomes that all accept tally to the records they accept, in order, and no error. */
  lemma {:induction false} TalliedAccepted<E>(outcomes: seq<RowOutcome<E>>, records: seq<ComparisonRecord>)
    requires |outcomes| == |records|
    requires forall k :: 0 <= k < |outcomes| ==> outcomes[k] == Accepted(records[k])
    ensures Tallied(outcomes) == (records, [])
  {
    if outcomes != [] {
      var n := |outcomes| - 1;
      TalliedAccepted(outcomes[..n], records[..n]);
      assert records[..n] + [records[n]] == records;
    }
  }

  /** Every outcome is tallied exactly once, as a record or as an error, and every tallied record was accepted. */
  lemma {:induction false} TalliedCounts<E>(outcomes: seq<RowOutcome<E>>)
    ensures |Tallied(outcomes).0| + |Tallied(outcomes).1| == |outcomes|
    ensures forall record :: record in Tallied(outcomes).0 ==> Accepted(record) in outcomes
  {
    if outcomes != [] {
      var n := |outcomes| - 1;
      TalliedCounts(outcomes[..n]);
      assert outcomes == outcomes[..n] + [outcomes[n]];
    }
  }
}
