/**
 * The smart importer's quote-aware line tokenizer (`parseCSVLine(line, separator)`)
 * and its value escaper (`escapeCSVValue`), with the facts that connect the two.
 */
module CsvLine {
  import opened JsString

  /**
   * The tokenizer's character loop as a function of what is left to read:
   * `s` is the unread input, `cur` the field being built, `inQuotes` the quote
   * flag and `done` the fields pushed so far, before the trim the tokenizer
   * applies to each of them (see `Fields`). A quote toggles the flag,
   * except that `""` inside quotes adds one literal quote; an unquoted separator
   * ends the field.
   */
  function Scan(s: string, sep: char, cur: string, inQuotes: bool, done: seq<string>): seq<string>
    decreases |s|
  {
    if s == [] then done + [cur]
    else if s[0] == '"' then
      if inQuotes && |s| > 1 && s[1] == '"' then Scan(s[2..], sep, cur + ['"'], true, done)
      else Scan(s[1..], sep, cur, !inQuotes, done)
    else if s[0] == sep && !inQuotes then Scan(s[1..], sep, "", false, done + [cur])
    else Scan(s[1..], sep, cur + [s[0]], inQuotes, done)
  }

  /** `v.replace(/^"|"$/g, '')`: one leading and then one trailing quote removed. */
  function StripQuote(v: string): (r: string)
    ensures (v == [] || (v[0] != '"' && v[|v| - 1] != '"')) ==> r == v
    ensures |r| <= |v|
  {
    var a := if v != [] && v[0] == '"' then v[1..] else v;
    if a != [] && a[|a| - 1] == '"' then a[..|a| - 1] else a
  }

  /** What one field value becomes: trimmed when pushed, then quote-stripped. */
  function Finish(v: string): string
  {
    StripQuote(TrimStr(v))
  }

  function FinishAll(vs: seq<string>): (r: seq<string>)
    ensures |r| == |vs|
  {
    seq(|vs|, i requires 0 <= i < |vs| => Finish(vs[i]))
  }

  function TrimAll(vs: seq<string>): (r: seq<string>)
    ensures |r| == |vs|
  {
    seq(|vs|, i requires 0 <= i < |vs| => TrimStr(vs[i]))
  }

  /** `map` of `StripQuote` over the fields. */
  function StripAll(vs: seq<string>): (r: seq<string>)
    ensures |r| == |vs|
  {
    seq(|vs|, i requires 0 <= i < |vs| => StripQuote(vs[i]))
  }

  lemma StripTrimmed(raw: seq<string>)
    ensures StripAll(TrimAll(raw)) == FinishAll(raw)
  {
  }

  lemma TrimAllSnoc(vs: seq<string>, v: string)
    ensures TrimAll(vs + [v]) == TrimAll(vs) + [TrimStr(v)]
  {
  }

  /** The fields `parseCSVLine(line, sep)` returns: each scanned field trimmed, then quote-stripped. */
  function Fields(line: string, sep: char): seq<string>
  {
    FinishAll(Scan(line, sep, "", false, []))
  }

  /** The tokenizer, as the source writes it: one pass with a skip over escaped quotes. */
  method ParseCsvLine(line: string, sep: char) returns (fields: seq<string>)
    ensures fields == Fields(line, sep)
  {
    var result: seq<string> := [];
    var current := "";
    var inQuotes := false;
    var i := 0;
    ghost var raw: seq<string> := [];
    while i < |line|
      invariant 0 <= i <= |line|
      invariant result == TrimAll(raw)
      invariant Scan(line[i..], sep, current, inQuotes, raw) == Scan(line, sep, "", false, [])
    {
      var c := line[i];
      if c == '"' {
        if inQuotes && i + 1 < |line| && line[i + 1] == '"' {
          current := current + ['"'];
          i := i + 1;
        } else {
          inQuotes := !inQuotes;
        }
      } else if c == sep && !inQuotes {
        TrimAllSnoc(raw, current);
        result := result + [TrimStr(current)];
        raw := raw + [current];
        current := "";
      } else {
        current := current + [c];
      }
      i := i + 1;
    }
    TrimAllSnoc(raw, current);
    result := result + [TrimStr(current)];
    raw := raw + [current];
    StripTrimmed(raw);
    fields := StripAll(result);
  }

  /** The separators the tokenizer treats as field breaks: those it meets outside quotes. */
  function SepsOutside(s: string, sep: char, inQuotes: bool): nat
    decreases |s|
  {
    if s == [] then 0
    else if s[0] == '"' then
      if inQuotes && |s| > 1 && s[1] == '"' then SepsOutside(s[2..], sep, true)
      else SepsOutside(s[1..], sep, !inQuotes)
    else if s[0] == sep && !inQuotes then 1 + SepsOutside(s[1..], sep, false)
    else SepsOutside(s[1..], sep, inQuotes)
  }

  lemma {:induction false} ScanLength(s: string, sep: char, cur: string, inQuotes: bool, done: seq<string>)
    ensures |Scan(s, sep, cur, inQuotes, done)| == |done| + 1 + SepsOutside(s, sep, inQuotes)
    decreases |s|
  {
    if s != [] {
      if s[0] == '"' {
        if inQuotes && |s| > 1 && s[1] == '"' {
          ScanLength(s[2..], sep, cur + ['"'], true, done);
        } else {
          ScanLength(s[1..], sep, cur, !inQuotes, done);
        }
      } else if s[0] == sep && !inQuotes {
        ScanLength(s[1..], sep, "", false, done + [cur]);
      } else {
        ScanLength(s[1..], sep, cur + [s[0]], inQuotes, done);
      }
    }
  }

  /** A line splits into one more field than it has separators outside quotes; so never into none. */
  lemma FieldCount(line: string, sep: char)
    ensures |Fields(line, sep)| == 1 + SepsOutside(line, sep, false)
    ensures |Fields(line, sep)| >= 1
  {
    ScanLength(line, sep, "", false, []);
  }

  lemma {:induction false} NoSeparatorNoBreak(s: string, sep: char, inQuotes: bool)
    requires sep !in s
    ensures SepsOutside(s, sep, inQuotes) == 0
    decreases |s|
  {
    if s != [] {
      if s[0] == '"' && inQuotes && |s| > 1 && s[1] == '"' {
        NoSeparatorNoBreak(s[2..], sep, true);
      } else if s[0] == '"' {
        NoSeparatorNoBreak(s[1..], sep, !inQuotes);
      } else {
        NoSeparatorNoBreak(s[1..], sep, inQuotes);
      }
    }
  }

  /** A line without the separator is one field. */
  lemma SingleField(line: string, sep: char)
    requires sep !in line
    ensures |Fields(line, sep)| == 1
  {
    FieldCount(line, sep);
    NoSeparatorNoBreak(line, sep, false);
  }

  /** Outside quotes, a run free of quotes and separators is copied into the field as is. */
  lemma {:induction false} ScanPlain(v: string, rest: string, sep: char, cur: string, done: seq<string>)
    requires '"' !in v && sep !in v
    ensures Scan(v + rest, sep, cur, false, done) == Scan(rest, sep, cur + v, false, done)
    decreases |v|
  {
    if v == [] {
      assert v + rest == rest;
      assert cur + v == cur;
    } else {
      assert (v + rest)[1..] == v[1..] + rest;
      ScanPlain(v[1..], rest, sep, cur + [v[0]], done);
      assert cur + [v[0]] + v[1..] == cur + v;
    }
  }

  /** A quote closes the quoted part unless a second quote follows it. */
  lemma ScanClosingQuote(rest: string, sep: char, cur: string, done: seq<string>)
    requires rest == [] || rest[0] != '"'
    ensures Scan(['"'] + rest, sep, cur, true, done) == Scan(rest, sep, cur, false, done)
  {
    var s := ['"'] + rest;
    assert s[0] == '"' && s[1..] == rest;
  }

  lemma DoubledHead(v: string, rest: string)
    requires v != []
    ensures DoubleQuotes(v) + rest
         == (if v[0] == '"' then "\"\"" else [v[0]]) + (DoubleQuotes(v[1..]) + rest)
  {
  }

  /** How a quote-doubled value followed by more text begins. */
  lemma DoubledShape(v: string, rest: string)
    requires v != []
    ensures var s := DoubleQuotes(v) + rest;
            var t := DoubleQuotes(v[1..]) + rest;
            if v[0] == '"' then |s| > 1 && s[0] == '"' && s[1] == '"' && s[2..] == t
            else s != [] && s[0] == v[0] && s[1..] == t
  {
    var s := DoubleQuotes(v) + rest;
    var t := DoubleQuotes(v[1..]) + rest;
    var h := if v[0] == '"' then "\"\"" else [v[0]];
    DoubledHead(v, rest);
    assert s == h + t;
    assert s[|h|..] == t;
  }

  /** Inside quotes, the first character of a quote-doubled value is added to the field. */
  lemma ScanDoubledStep(v: string, rest: string, sep: char, cur: string, done: seq<string>)
    requires v != []
    ensures Scan(DoubleQuotes(v) + rest, sep, cur, true, done)
         == Scan(DoubleQuotes(v[1..]) + rest, sep, cur + [v[0]], true, done)
  {
    DoubledShape(v, rest);
  }

  /** The closing quote of an empty quoted value. */
  lemma ScanQuotedEnd(v: string, rest: string, sep: char, cur: string, done: seq<string>)
    requires v == [] && (rest == [] || rest[0] != '"')
    ensures Scan(DoubleQuotes(v) + ['"'] + rest, sep, cur, true, done) == Scan(rest, sep, cur + v, false, done)
  {
    assert DoubleQuotes(v) + ['"'] + rest == ['"'] + rest;
    ScanClosingQuote(rest, sep, cur, done);
    assert cur + v == cur;
  }

  lemma Associates(a: string, closing: string)
    requires closing != [] && closing[0] == '"'
    ensures a + ['"'] + closing[1..] == a + closing
  {
    assert closing == ['"'] + closing[1..];
  }

  lemma AppendHead(cur: string, v: string)
    requires v != []
    ensures cur + [v[0]] + v[1..] == cur + v
  {
  }

  /**
   * Inside quotes, a value with its quotes doubled followed by the closing quote
   * is read back as the value itself, and the quote flag is off again.
   */
  lemma {:induction false} ScanQuoted(v: string, rest: string, sep: char, cur: string, done: seq<string>)
    requires rest == [] || rest[0] != '"'
    ensures Scan(DoubleQuotes(v) + ['"'] + rest, sep, cur, true, done) == Scan(rest, sep, cur + v, false, done)
    decreases |v|
  {
    if v == [] {
      ScanQuotedEnd(v, rest, sep, cur, done);
    } else {
      var closing := ['"'] + rest;
      ScanDoubledStep(v, closing, sep, cur, done);
      Associates(DoubleQuotes(v), closing);
      Associates(DoubleQuotes(v[1..]), closing);
      ScanQuoted(v[1..], rest, sep, cur + [v[0]], done);
      AppendHead(cur, v);
    }
  }

  /** `e` is a written form of `v` the tokenizer reads back: `v` itself, or `v` quoted with quotes doubled. */
  predicate WrittenForm(e: string, v: string, sep: char)
  {
    (e == v && '"' !in v && sep !in v) || e == ['"'] + DoubleQuotes(v) + ['"']
  }

  /** A written field followed by a separator or the end of the line is read back as its value. */
  lemma ScanField(e: string, v: string, rest: string, sep: char, done: seq<string>)
    requires sep != '"' && WrittenForm(e, v, sep)
    requires rest == [] || rest[0] != '"'
    ensures Scan(e + rest, sep, "", false, done) == Scan(rest, sep, v, false, done)
  {
    if e == v && '"' !in v && sep !in v {
      ScanPlain(v, rest, sep, "", done);
      assert "" + v == v;
    } else {
      var s := e + rest;
      assert s == ['"'] + (DoubleQuotes(v) + ['"'] + rest);
      assert s[1..] == DoubleQuotes(v) + ['"'] + rest;
      ScanQuoted(v, rest, sep, "", done);
      assert "" + v == v;
    }
  }

  /** Outside quotes, a separator pushes the field and starts an empty one. */
  lemma ScanSeparator(tail: string, sep: char, cur: string, done: seq<string>)
    requires sep != '"'
    ensures Scan([sep] + tail, sep, cur, false, done) == Scan(tail, sep, "", false, done + [cur])
  {
    var s := [sep] + tail;
    assert s[0] == sep && s[1..] == tail;
  }

  /** The last written field of a line is read back as its value. */
  lemma ScanLastField(e: string, v: string, sep: char, done: seq<string>)
    requires sep != '"' && WrittenForm(e, v, sep)
    ensures Scan(e, sep, "", false, done) == done + [v]
  {
    ScanField(e, v, [], sep, done);
    assert e + [] == e;
  }

  /** The first written field of a joined line is read back, and the rest of the line follows. */
  lemma ScanFirstField(es: seq<string>, v: string, sep: char, done: seq<string>)
    requires sep != '"' && |es| >= 2 && WrittenForm(es[0], v, sep)
    ensures Scan(Join(es, sep), sep, "", false, done) == Scan(Join(es[1..], sep), sep, "", false, done + [v])
  {
    var tail := Join(es[1..], sep);
    var rest := [sep] + tail;
    assert Join(es, sep) == es[0] + rest;
    ScanField(es[0], v, rest, sep, done);
    ScanSeparator(tail, sep, v, done);
  }

  /** Written fields joined by the separator are read back as the values. */
  lemma {:induction false} ScanJoined(es: seq<string>, vs: seq<string>, sep: char, done: seq<string>)
    requires sep != '"'
    requires |es| == |vs| >= 1
    requires forall i :: 0 <= i < |es| ==> WrittenForm(es[i], vs[i], sep)
    ensures Scan(Join(es, sep), sep, "", false, done) == done + vs
    decreases |es|
  {
    if |es| == 1 {
      ScanLastField(es[0], vs[0], sep, done);
      assert vs == [vs[0]];
    } else {
      forall i | 0 <= i < |es| - 1 ensures WrittenForm(es[1..][i], vs[1..][i], sep) {
        assert WrittenForm(es[i + 1], vs[i + 1], sep);
      }
      ScanFirstField(es, vs[0], sep, done);
      ScanJoined(es[1..], vs[1..], sep, done + [vs[0]]);
      assert done + [vs[0]] + vs[1..] == done + vs;
    }
  }

  /** Tokenizing a line of written fields gives back each value trimmed and quote-stripped. */
  lemma FieldsOfJoined(es: seq<string>, vs: seq<string>, sep: char)
    requires sep != '"'
    requires |es| == |vs| >= 1
    requires forall i :: 0 <= i < |es| ==> WrittenForm(es[i], vs[i], sep)
    ensures Fields(Join(es, sep), sep) == FinishAll(vs)
  {
    ScanJoined(es, vs, sep, []);
    assert [] + vs == vs;
  }

  /** On a line without quotes the tokenizer is `split(sep)` followed by `trim`. */
  lemma QuoteFreeLine(line: string, sep: char)
    requires sep != '"' && '"' !in line
    ensures Fields(line, sep) == TrimAll(Split(line, sep))
    ensures |Fields(line, sep)| == Count(line, sep) + 1
  {
    var parts := Split(line, sep);
    forall i | 0 <= i < |parts| ensures WrittenForm(parts[i], parts[i], sep) {
      QuoteFreePart(line, sep, parts, i);
    }
    FieldsOfJoined(parts, parts, sep);
    forall i | 0 <= i < |parts| ensures Finish(parts[i]) == TrimStr(parts[i]) {
      QuoteFreePart(line, sep, parts, i);
      var t := TrimStr(parts[i]);
      if t != [] {
        assert t[0] in t && t[|t| - 1] in t;
      }
    }
  }

  lemma QuoteFreePart(line: string, sep: char, parts: seq<string>, i: nat)
    requires '"' !in line && parts == Split(line, sep) && i < |parts|
    ensures '"' !in parts[i] && '"' !in TrimStr(parts[i])
  {
    SplitPiecesFrom(line, sep, '"');
    TrimSubset(parts[i]);
  }

  lemma {:induction false} SplitPiecesFrom(s: string, sep: char, c: char)
    requires c !in s
    ensures forall i :: 0 <= i < |Split(s, sep)| ==> c !in Split(s, sep)[i]
    decreases |s|
  {
    if sep in s {
      var k := FirstIndex(s, sep);
      SplitPiecesFrom(s[k + 1..], sep, c);
      assert forall x :: x in s[..k] ==> x in s;
    }
  }

  lemma TrimSubset(s: string)
    ensures forall x :: x in TrimStr(s) ==> x in s
  {
    var l := TrimLeft(s, IsSpace);
    var r := TrimRight(l, IsSpace);
    assert forall x :: x in r ==> x in l;
  }

  /** The characters that make `escapeCSVValue` quote a value. */
  predicate NeedsQuoting(v: string)
  {
    ',' in v || '"' in v || '\n' in v || '\r' in v
  }

  /** `escapeCSVValue`. */
  function Escape(v: string): (r: string)
    ensures v == "" ==> r == ""
    ensures r == v <==> !NeedsQuoting(v)
    ensures NeedsQuoting(v) ==> r == ['"'] + DoubleQuotes(v) + ['"']
  {
    if v == "" then ""
    else if NeedsQuoting(v) then "\"" + DoubleQuotes(v) + "\""
    else v
  }

  /** Every escaped value is a written form the comma tokenizer reads back. */
  lemma EscapeIsWritten(v: string)
    ensures WrittenForm(Escape(v), v, ',')
  {
  }

  /** Six values mapped one by one, written out. */
  lemma SixOf(r: seq<string>, vs: seq<string>, f: string -> string)
    requires |r| == 6 && |vs| == 6
    requires forall i :: 0 <= i < 6 ==> r[i] == f(vs[i])
    ensures r == [f(vs[0]), f(vs[1]), f(vs[2]), f(vs[3]), f(vs[4]), f(vs[5])]
  {
  }

  function EscapeAll(vs: seq<string>): (r: seq<string>)
    ensures |r| == |vs|
  {
    seq(|vs|, i requires 0 <= i < |vs| => Escape(vs[i]))
  }

  /**
   * Escaping values, joining them with commas and tokenizing the line gives back
   * every value trimmed and quote-stripped, whatever commas and quotes it holds.
   */
  lemma {:induction false} EscapedRowRoundTrip(vs: seq<string>)
    requires |vs| >= 1
    ensures Fields(Join(EscapeAll(vs), ','), ',') == FinishAll(vs)
  {
    forall i | 0 <= i < |vs| ensures WrittenForm(EscapeAll(vs)[i], vs[i], ',') {
      EscapeIsWritten(vs[i]);
    }
    FieldsOfJoined(EscapeAll(vs), vs, ',');
  }

  /**
   * A value whose only quote is a leading one loses that quote on the way
   * through escape and parse.
   */
  lemma LeadingQuoteLost(v: string)
    requires v != [] && v[0] == '"' && '"' !in v[1..] && TrimStr(v) == v
    ensures Fields(Escape(v), ',') == [v[1..]]
  {
    EscapedRowRoundTrip([v]);
    assert Join(EscapeAll([v]), ',') == Escape(v);
    assert v[|v| - 1] == '"' ==> |v| == 1 by {
      if |v| > 1 {
        assert v[|v| - 1] == v[1..][|v| - 2];
      }
    }
  }
}
