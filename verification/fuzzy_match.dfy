/**
 * Fuzzy header matching: normalisation, the Levenshtein distance (its
 * recursive definition and the source's dynamic-programming table), and the
 * similarity score `calculateSimilarity`.
 */
module FuzzyMatch {
  import opened JsString

  predicate IsLowerAlnum(c: char)
  {
    'a' <= c <= 'z' || '0' <= c <= '9'
  }

  /** `s.toLowerCase().replace(/[^a-z0-9]/g, '')`, with ASCII lower-casing. */
  function Normalize(s: string): (r: string)
    ensures |r| <= |s|
    ensures forall i :: 0 <= i < |r| ==> IsLowerAlnum(r[i])
  {
    if s == [] then []
    else (if IsLowerAlnum(AsciiLower(s[0])) then [AsciiLower(s[0])] else []) + Normalize(s[1..])
  }

  /** Normalising a concatenation normalises each part. */
  lemma {:induction false} NormalizeAppend(a: string, b: string)
    ensures Normalize(a + b) == Normalize(a) + Normalize(b)
  {
    if a != [] {
      assert (a + b)[1..] == a[1..] + b;
      NormalizeAppend(a[1..], b);
    } else {
      assert a + b == b;
    }
  }

  function Min3(a: nat, b: nat, c: nat): (m: nat)
  {
    if a <= b && a <= c then a else if b <= c then b else c
  }

  function Max(a: nat, b: nat): nat
  {
    if a >= b then a else b
  }

  /**
   * Edit distance between `a` and `b` (insertions, deletions, substitutions),
   * by recursion on the last characters: the value the source's table holds at
   * row |b|, column |a|.
   */
  function Lev(a: string, b: string): nat
    decreases |a| + |b|
  {
    if |a| == 0 then |b|
    else if |b| == 0 then |a|
    else
      var cost := if a[|a| - 1] == b[|b| - 1] then 0 else 1;
      Min3(Lev(a[..|a| - 1], b) + 1, Lev(a, b[..|b| - 1]) + 1, Lev(a[..|a| - 1], b[..|b| - 1]) + cost)
  }

  /** The table entry the source keeps at row `j`, column `i`. */
  function Cell(s1: string, s2: string, i: nat, j: nat): nat
    requires i <= |s1| && j <= |s2|
  {
    Lev(s1[..i], s2[..j])
  }

  /** One cell of the table from its left, upper and diagonal neighbours. */
  lemma CellStep(s1: string, s2: string, i: nat, j: nat)
    requires 1 <= i <= |s1| && 1 <= j <= |s2|
    ensures Cell(s1, s2, i, j) == Min3(Cell(s1, s2, i - 1, j) + 1, Cell(s1, s2, i, j - 1) + 1,
                                       Cell(s1, s2, i - 1, j - 1) + (if s1[i - 1] == s2[j - 1] then 0 else 1))
  {
    assert s1[..i][..i - 1] == s1[..i - 1] && s2[..j][..j - 1] == s2[..j - 1];
  }

  /** `levenshteinDistance`: fills the (|s2|+1) x (|s1|+1) table row by row. */
  method LevenshteinDistance(s1: string, s2: string) returns (d: nat)
    ensures d == Lev(s1, s2)
  {
    var matrix := new nat[|s2| + 1, |s1| + 1];
    var i := 0;
    while i <= |s1|
      invariant 0 <= i <= |s1| + 1
      invariant forall ii :: 0 <= ii < i ==> matrix[0, ii] == Cell(s1, s2, ii, 0)
    {
      matrix[0, i] := i;
      i := i + 1;
    }
    var j := 0;
    while j <= |s2|
      invariant 0 <= j <= |s2| + 1
      invariant forall ii :: 0 <= ii <= |s1| ==> matrix[0, ii] == Cell(s1, s2, ii, 0)
      invariant forall jj :: 0 <= jj < j ==> matrix[jj, 0] == Cell(s1, s2, 0, jj)
    {
      matrix[j, 0] := j;
      j := j + 1;
    }
    j := 1;
    while j <= |s2|
      invariant 1 <= j <= |s2| + 1
      invariant forall jj, ii :: 0 <= jj < j && 0 <= ii <= |s1| ==> matrix[jj, ii] == Cell(s1, s2, ii, jj)
      invariant forall jj :: j <= jj <= |s2| ==> matrix[jj, 0] == Cell(s1, s2, 0, jj)
    {
      i := 1;
      while i <= |s1|
        invariant 1 <= i <= |s1| + 1
        invariant forall jj, ii :: 0 <= jj < j && 0 <= ii <= |s1| ==> matrix[jj, ii] == Cell(s1, s2, ii, jj)
        invariant forall ii :: 0 <= ii < i ==> matrix[j, ii] == Cell(s1, s2, ii, j)
        invariant forall jj :: j < jj <= |s2| ==> matrix[jj, 0] == Cell(s1, s2, 0, jj)
      {
        var cost := if s1[i - 1] == s2[j - 1] then 0 else 1;
        CellStep(s1, s2, i, j);
        matrix[j, i] := Min3(matrix[j, i - 1] + 1, matrix[j - 1, i] + 1, matrix[j - 1, i - 1] + cost);
        i := i + 1;
      }
      j := j + 1;
    }
    assert s1[..|s1|] == s1 && s2[..|s2|] == s2;
    d := matrix[|s2|, |s1|];
  }

  /** Every string is at distance 0 from itself. */
  lemma {:induction false} LevSelf(s: string)
    ensures Lev(s, s) == 0
    decreases |s|
  {
    if |s| > 0 {
      LevSelf(s[..|s| - 1]);
    }
  }

  /** The distance is symmetric. */
  lemma {:induction false} LevSymmetric(a: string, b: string)
    ensures Lev(a, b) == Lev(b, a)
    decreases |a| + |b|
  {
    if |a| > 0 && |b| > 0 {
      LevSymmetric(a[..|a| - 1], b);
      LevSymmetric(a, b[..|b| - 1]);
      LevSymmetric(a[..|a| - 1], b[..|b| - 1]);
    }
  }

  /** The distance is at least the length difference and at most the longer length. */
  lemma {:induction false} LevBounds(a: string, b: string)
    ensures |a| - |b| <= Lev(a, b) && |b| - |a| <= Lev(a, b)
    ensures Lev(a, b) <= Max(|a|, |b|)
    decreases |a| + |b|
  {
    if |a| > 0 && |b| > 0 {
      LevBounds(a[..|a| - 1], b);
      LevBounds(a, b[..|b| - 1]);
      LevBounds(a[..|a| - 1], b[..|b| - 1]);
    }
  }

  /** Distance 0 means equal strings. */
  lemma {:induction false} LevZeroIffEqual(a: string, b: string)
    ensures Lev(a, b) == 0 <==> a == b
    decreases |a| + |b|
  {
    if a == b {
      LevSelf(a);
    } else if |a| > 0 && |b| > 0 {
      var a', b' := a[..|a| - 1], b[..|b| - 1];
      LevZeroIffEqual(a', b');
    }
  }

  lemma RatioBounds(d: nat, m: nat)
    requires 1 <= d <= m
    ensures 0.0 < (d as real) / (m as real) <= 1.0
  {
    assert (d as real) / (m as real) * (m as real) == d as real;
  }

  /**
   * `calculateSimilarity`: 1 for equal normalisations, 0.8 when one contains
   * the other, else one minus the distance over the longer length.
   */
  function Similarity(str1: string, str2: string): (r: real)
    ensures 0.0 <= r <= 1.0
    ensures r == 1.0 <==> Normalize(str1) == Normalize(str2)
    ensures Normalize(str1) != Normalize(str2) && (Contains(Normalize(str1), Normalize(str2)) || Contains(Normalize(str2), Normalize(str1))) ==> r == 0.8
  {
    var s1 := Normalize(str1);
    var s2 := Normalize(str2);
    if s1 == s2 then 1.0
    else if Contains(s1, s2) || Contains(s2, s1) then 0.8
    else
      var maxLen := Max(|s1|, |s2|);
      if maxLen == 0 then 1.0
      else
        LevBounds(s1, s2);
        LevZeroIffEqual(s1, s2);
        RatioBounds(Lev(s1, s2), maxLen);
        1.0 - (Lev(s1, s2) as real) / (maxLen as real)
  }

  /** Below the substring cases the score is the normalised edit distance. */
  lemma SimilarityByDistance(str1: string, str2: string)
    requires !Contains(Normalize(str1), Normalize(str2)) && !Contains(Normalize(str2), Normalize(str1))
    ensures Max(|Normalize(str1)|, |Normalize(str2)|) > 0
    ensures Similarity(str1, str2) ==
      1.0 - (Lev(Normalize(str1), Normalize(str2)) as real) / (Max(|Normalize(str1)|, |Normalize(str2)|) as real)
  {
    var s1, s2 := Normalize(str1), Normalize(str2);
    assert s1 <= s1[0..];
  }

  /** A header that normalises to nothing scores 0.8 against every pattern that does not. */
  lemma EmptyNormalisationScore(header: string, pattern: string)
    requires Normalize(header) == [] && Normalize(pattern) != []
    ensures Similarity(header, pattern) == 0.8
  {
    assert [] <= Normalize(pattern)[0..];
  }

  /** The score does not depend on the order of its arguments. */
  lemma SimilaritySymmetric(str1: string, str2: string)
    ensures Similarity(str1, str2) == Similarity(str2, str1)
  {
    LevSymmetric(Normalize(str1), Normalize(str2));
  }
}
