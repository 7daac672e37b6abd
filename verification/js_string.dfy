/**
 * The few ECMAScript string operations the CSV and metrics code relies on:
 * `trim`, `split` on one character, `join`, ASCII `toLowerCase`,
 * `includes`, and `replace(/"/g, '""')`.
 */
module JsString {

  /** ECMAScript WhiteSpace and LineTerminator code points: what `trim` removes and `\s` matches. */
  predicate IsSpaceCode(c: int)
  {
    c == 0x09 || c == 0x0A || c == 0x0B || c == 0x0C || c == 0x0D || c == 0x20 ||
    c == 0xA0 || c == 0x1680 || (0x2000 <= c <= 0x200A) || c == 0x2028 || c == 0x2029 ||
    c == 0x202F || c == 0x205F || c == 0x3000 || c == 0xFEFF
  }

  predicate IsSpace(c: char)
  {
    IsSpaceCode(c as int)
  }

  /** Drops the leading elements that `space` holds of. */
  function TrimLeft<T>(s: seq<T>, space: T -> bool): (r: seq<T>)
    ensures |r| <= |s| && r == s[|s| - |r|..]
    ensures r != [] ==> !space(r[0])
  {
    if s != [] && space(s[0]) then TrimLeft(s[1..], space) else s
  }

  lemma {:induction false} TrimLeftDropsSpaces<T>(s: seq<T>, space: T -> bool)
    ensures forall k :: 0 <= k < |s| - |TrimLeft(s, space)| ==> space(s[k])
  {
    if s != [] && space(s[0]) {
      TrimLeftDropsSpaces(s[1..], space);
    }
  }

  /** Drops the trailing elements that `space` holds of. */
  function TrimRight<T>(s: seq<T>, space: T -> bool): (r: seq<T>)
    ensures |r| <= |s| && r == s[..|r|]
    ensures r != [] ==> !space(r[|r| - 1])
  {
    if s != [] && space(s[|s| - 1]) then TrimRight(s[..|s| - 1], space) else s
  }

  lemma {:induction false} TrimRightDropsSpaces<T>(s: seq<T>, space: T -> bool)
    ensures forall k :: |TrimRight(s, space)| <= k < |s| ==> space(s[k])
  {
    if s != [] && space(s[|s| - 1]) {
      TrimRightDropsSpaces(s[..|s| - 1], space);
    }
  }

  /** `String.prototype.trim`, with the whitespace test as a parameter. */
  function Trim<T>(s: seq<T>, space: T -> bool): (r: seq<T>)
    ensures |r| <= |s|
    ensures r != [] ==> !space(r[0]) && !space(r[|r| - 1])
    ensures (s == [] || (!space(s[0]) && !space(s[|s| - 1]))) ==> r == s
  {
    var l := TrimLeft(s, space);
    var r := TrimRight(l, space);
    r
  }

  /** `trim` leaves nothing exactly when every element is whitespace. */
  lemma TrimEmpty<T>(s: seq<T>, space: T -> bool)
    ensures Trim(s, space) == [] <==> forall k :: 0 <= k < |s| ==> space(s[k])
  {
    var l := TrimLeft(s, space);
    TrimLeftDropsSpaces(s, space);
    TrimRightDropsSpaces(l, space);
    assert TrimRight(l, space) == [] ==> l == [];
  }

  /** The string form of `trim` used throughout the CSV code. */
  function TrimStr(s: string): string
  {
    Trim(s, IsSpace)
  }

  /**
   * A line holding a character that is not whitespace: the lines that
   * `line.trim()` leaves non-empty (see `NonBlankIsTrimmedNonEmpty`).
   */
  predicate NonBlank(line: string)
  {
    line != [] && (!IsSpace(line[0]) || NonBlank(line[1..]))
  }

  lemma {:induction false} NonBlankAt(line: string)
    ensures NonBlank(line) <==> exists k :: 0 <= k < |line| && !IsSpace(line[k])
  {
    if line != [] {
      NonBlankAt(line[1..]);
      if !IsSpace(line[0]) {
      } else if NonBlank(line[1..]) {
        var k :| 0 <= k < |line[1..]| && !IsSpace(line[1..][k]);
        assert !IsSpace(line[k + 1]);
      } else {
        forall k | 0 <= k < |line| ensures IsSpace(line[k]) {
          if k > 0 {
            assert line[k] == line[1..][k - 1];
          }
        }
      }
    }
  }

  /** `line.trim()` is non-empty exactly for the non-blank lines. */
  lemma NonBlankIsTrimmedNonEmpty(line: string)
    ensures NonBlank(line) <==> TrimStr(line) != ""
  {
    NonBlankAt(line);
    TrimEmpty(line, IsSpace);
  }

  function NonBlankLines(lines: seq<string>): (r: seq<string>)
    ensures |r| <= |lines|
    ensures forall i :: 0 <= i < |r| ==> NonBlank(r[i])
  {
    if lines == [] then []
    else
      (if NonBlank(lines[0]) then [lines[0]] else []) + NonBlankLines(lines[1..])
  }

  /** Filtering keeps every line when none is blank. */
  lemma {:induction false} NonBlankLinesKeepsAll(lines: seq<string>)
    requires forall i :: 0 <= i < |lines| ==> NonBlank(lines[i])
    ensures NonBlankLines(lines) == lines
  {
    if lines != [] {
      NonBlankLinesKeepsAll(lines[1..]);
    }
  }

  /** Number of occurrences of `c` in `s`. */
  function Count<T(==)>(s: seq<T>, c: T): (n: nat)
    ensures n <= |s|
    ensures n == 0 <==> c !in s
  {
    if s == [] then 0 else (if s[0] == c then 1 else 0) + Count(s[1..], c)
  }

  /** Index of the first `c` in `s`. */
  function FirstIndex(s: string, c: char): (k: nat)
    requires c in s
    ensures k < |s| && s[k] == c && c !in s[..k]
  {
    if s[0] == c then 0 else 1 + FirstIndex(s[1..], c)
  }

  /** `Array.prototype.join` with a one-character separator. */
  function Join(parts: seq<string>, sep: char): (r: string)
  {
    if |parts| == 0 then ""
    else if |parts| == 1 then parts[0]
    else parts[0] + [sep] + Join(parts[1..], sep)
  }

  /** `String.prototype.split` on one character: the pieces between the occurrences of `sep`. */
  function Split(s: string, sep: char): (r: seq<string>)
    ensures |r| == Count(s, sep) + 1
    ensures forall i :: 0 <= i < |r| ==> sep !in r[i]
    ensures Join(r, sep) == s
    decreases |s|
  {
    if sep in s then
      var k := FirstIndex(s, sep);
      var rest := Split(s[k + 1..], sep);
      assert s == s[..k] + [sep] + s[k + 1..];
      CountSplit(s, k, sep);
      [s[..k]] + rest
    else [s]
  }

  lemma {:induction false} CountSplit(s: string, k: nat, c: char)
    requires k < |s| && s[k] == c && c !in s[..k]
    ensures Count(s, c) == 1 + Count(s[k + 1..], c)
  {
    if k > 0 {
      assert s[1..][..k - 1] == s[1..k];
      assert s[1..][k..] == s[k + 1..];
      CountSplit(s[1..], k - 1, c);
    }
  }

  /** Splitting a join of separator-free pieces gives the pieces back. */
  lemma {:induction false} SplitJoin(parts: seq<string>, sep: char)
    requires |parts| >= 1
    requires forall i :: 0 <= i < |parts| ==> sep !in parts[i]
    ensures Split(Join(parts, sep), sep) == parts
  {
    if |parts| > 1 {
      var s := Join(parts, sep);
      var rest := Join(parts[1..], sep);
      assert s == parts[0] + [sep] + rest;
      assert s[|parts[0]|] == sep;
      assert s[..|parts[0]|] == parts[0];
      assert FirstIndex(s, sep) == |parts[0]|;
      assert s[|parts[0]| + 1..] == rest;
      SplitJoin(parts[1..], sep);
    }
  }

  /** ASCII `toLowerCase`. */
  function AsciiLower(c: char): (r: char)
  {
    if 'A' <= c <= 'Z' then (c as int + 32) as char else c
  }

  function AsciiLowerStr(s: string): (r: string)
    ensures |r| == |s|
    ensures forall i :: 0 <= i < |s| ==> r[i] == AsciiLower(s[i])
  {
    if s == [] then [] else [AsciiLower(s[0])] + AsciiLowerStr(s[1..])
  }

  /** `hay.includes(needle)`. */
  predicate Contains(hay: string, needle: string)
  {
    exists i :: 0 <= i <= |hay| && needle <= hay[i..]
  }

  /** `value.replace(/"/g, '""')`: every quote doubled. */
  function DoubleQuotes(v: string): (r: string)
    ensures |r| == |v| + Count(v, '"')
  {
    if v == [] then [] else (if v[0] == '"' then "\"\"" else [v[0]]) + DoubleQuotes(v[1..])
  }

  /** `s.replace(/"/g, '')`: every quote removed. */
  function RemoveQuotes(s: string): (r: string)
    ensures '"' !in r
    ensures |r| == |s| - Count(s, '"')
  {
    if s == [] then [] else (if s[0] == '"' then "" else [s[0]]) + RemoveQuotes(s[1..])
  }
}
