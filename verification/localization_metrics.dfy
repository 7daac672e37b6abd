/**
 * Text metrics for translation review: UTF-8 byte length, the primary
 * script, right-to-left detection, the expansion rate against a source
 * text, word counts, the SMS / character / mobile-width constraint checks
 * and the expansion guidelines per script pair.
 *
 * Texts are ECMAScript strings, sequences of UTF-16 code units. The Unicode
 * property tables behind `\p{Script=…}` and `\p{P}` are a parameter.
 */
module LocalizationMetrics {
  import opened Wrappers
  import opened JsString
  import opened Utf16

  /** The scripts the detector knows, listed in the order it tries them. */
  datatype Script = Latin | Arabic | Hebrew | Cyrillic | Greek | Hiragana | Katakana | Han | Hangul | Devanagari | Thai

  const ScriptOrder: seq<Script> := [Latin, Arabic, Hebrew, Cyrillic, Greek, Hiragana, Katakana, Han, Hangul, Devanagari, Thai]

  /** What `detectScript` reports: `'None'`, a script's name, or `'Mixed/Other'`. */
  datatype Detected = NoText | Found(script: Script) | MixedOther

  /** The script's key with its first letter upper-cased. */
  function Name(s: Script): string
  {
    match s
    case Latin => "Latin"
    case Arabic => "Arabic"
    case Hebrew => "Hebrew"
    case Cyrillic => "Cyrillic"
    case Greek => "Greek"
    case Hiragana => "Hiragana"
    case Katakana => "Katakana"
    case Han => "Han"
    case Hangul => "Hangul"
    case Devanagari => "Devanagari"
    case Thai => "Thai"
  }

  /** The string `detectScript` returns. */
  function Label(d: Detected): string
  {
    match d
    case NoText => "None"
    case Found(s) => Name(s)
    case MixedOther => "Mixed/Other"
  }

  /** The Unicode character database: `\p{Script=…}` membership and the punctuation class `\p{P}`. */
  datatype UnicodeTables = UnicodeTables(inScript: (Script, int) -> bool, isPunctuation: int -> bool)

  /** The code points `replace(/[\s\p{P}]/gu, '')` deletes. */
  predicate Removed(cp: int, tables: UnicodeTables)
  {
    IsSpaceCode(cp) || tables.isPunctuation(cp)
  }

  /**
   * The text with whitespace and punctuation deleted, code point by code
   * point; lone surrogates are code points of their own and always stay.
   */
  function CleanText(t: seq<CodeUnit>, tables: UnicodeTables): (r: seq<CodeUnit>)
    ensures |r| <= |t|
  {
    if t == [] then []
    else if PairAt(t, 0) then (if Removed(Combine(t[0], t[1]), tables) then [] else t[..2]) + CleanText(t[2..], tables)
    else (if Removed(t[0], tables) then [] else [t[0]]) + CleanText(t[1..], tables)
  }

  /** The code points that survive the deletion, in order. */
  function Kept(cps: seq<int>, tables: UnicodeTables): (r: seq<int>)
    ensures forall i :: 0 <= i < |r| ==> r[i] in cps && !Removed(r[i], tables)
  {
    if cps == [] then [] else (if Removed(cps[0], tables) then [] else [cps[0]]) + Kept(cps[1..], tables)
  }

  /** The units of the first code point: two for a surrogate pair, else one. */
  function FirstWidth(t: seq<CodeUnit>): nat
  {
    if PairAt(t, 0) then 2 else 1
  }

  /** A string splits into its first code point and the rest. */
  lemma CodePointsCons(t: seq<CodeUnit>)
    requires t != []
    ensures FirstWidth(t) <= |t|
    ensures CodePoints(t) == CodePoints(t[..FirstWidth(t)]) + CodePoints(t[FirstWidth(t)..])
    ensures |CodePoints(t[..FirstWidth(t)])| == 1 && CodePoints(t[..FirstWidth(t)])[0] == CodePoints(t)[0]
  {
    var n := FirstWidth(t);
    assert t[..n][n..] == [];
    if n == 2 {
      assert PairAt(t[..n], 0);
    }
  }

  /** The code points of a whole code point followed by more text. */
  lemma CodePointsPrefixed(piece: seq<CodeUnit>, c: seq<CodeUnit>)
    requires |piece| == FirstWidth(piece) <= 2 && |CodePoints(piece)| == 1 && !IsSurrogate(CodePoints(piece)[0])
    ensures CodePoints(piece + c) == CodePoints(piece) + CodePoints(c)
  {
    var n := |piece|;
    assert (piece + c)[n..] == c;
    assert piece[n..] == [];
    if n == 2 {
      assert PairAt(piece + c, 0);
    } else {
      assert !PairAt(piece + c, 0);
    }
  }

  /** Well-formedness of a string carries over to what follows its first code point. */
  lemma WellFormedRest(t: seq<CodeUnit>)
    requires t != [] && WellFormed(t)
    ensures WellFormed(t[FirstWidth(t)..]) && !IsSurrogate(CodePoints(t)[0])
  {
    CodePointsCons(t);
    var rest := t[FirstWidth(t)..];
    forall i | 0 <= i < |CodePoints(rest)| ensures !IsSurrogate(CodePoints(rest)[i]) {
      assert CodePoints(rest)[i] == CodePoints(t)[i + 1];
    }
  }

  /** Cleaning removes or keeps the first code point whole. */
  lemma CleanCons(t: seq<CodeUnit>, tables: UnicodeTables)
    requires t != []
    ensures FirstWidth(t) <= |t|
    ensures CleanText(t, tables) ==
      (if Removed(CodePoints(t)[0], tables) then [] else t[..FirstWidth(t)]) + CleanText(t[FirstWidth(t)..], tables)
  {
  }

  /**
   * On text without lone surrogates, the cleaned text holds exactly the kept
   * code points of the original (with lone surrogates, two of them separated
   * by a deleted space can join into a new pair).
   */
  lemma {:induction false} CleanKeepsCodePoints(t: seq<CodeUnit>, tables: UnicodeTables)
    requires WellFormed(t)
    ensures CodePoints(CleanText(t, tables)) == Kept(CodePoints(t), tables)
  {
    if t != [] {
      var n := FirstWidth(t);
      var piece, rest := t[..n], t[n..];
      CodePointsCons(t);
      WellFormedRest(t);
      CleanKeepsCodePoints(rest, tables);
      CleanCons(t, tables);
      var cps := CodePoints(t);
      assert cps[1..] == CodePoints(rest);
      var kept := Kept(CodePoints(rest), tables);
      var c := CleanText(rest, tables);
      if Removed(cps[0], tables) {
        assert Kept(cps, tables) == kept;
        assert CleanText(t, tables) == c;
      } else {
        assert Kept(cps, tables) == [cps[0]] + kept;
        assert CleanText(t, tables) == piece + c;
        CodePointsPrefixed(piece, c);
        assert CodePoints(piece) == [cps[0]];
        assert CodePoints(piece + c) == [cps[0]] + kept;
      }
    }
  }

  /** `regex.test` for one script's class: some code point belongs to the script. */
  predicate HasScript(cps: seq<int>, inScript: (Script, int) -> bool, s: Script)
  {
    exists i :: 0 <= i < |cps| && inScript(s, cps[i])
  }

  /** `order[k]` is the first script of `order` that occurs in `cps`. */
  ghost predicate FirstWith(cps: seq<int>, inScript: (Script, int) -> bool, order: seq<Script>, k: int)
  {
    0 <= k < |order| && HasScript(cps, inScript, order[k]) &&
    forall j :: 0 <= j < k ==> !HasScript(cps, inScript, order[j])
  }

  /** The first script of `order` that occurs, or `MixedOther` when none does. */
  function FirstScript(cps: seq<int>, inScript: (Script, int) -> bool, order: seq<Script>): (d: Detected)
    ensures d != NoText
  {
    if order == [] then MixedOther
    else if HasScript(cps, inScript, order[0]) then Found(order[0])
    else FirstScript(cps, inScript, order[1..])
  }

  /** `FirstScript` finds the first script of `order` that occurs, and `MixedOther` means none does. */
  lemma {:induction false} FirstScriptIsFirst(cps: seq<int>, inScript: (Script, int) -> bool, order: seq<Script>)
    ensures var d := FirstScript(cps, inScript, order);
      (d == MixedOther <==> forall k :: 0 <= k < |order| ==> !HasScript(cps, inScript, order[k])) &&
      (d.Found? ==> exists k :: FirstWith(cps, inScript, order, k) && order[k] == d.script)
  {
    if order != [] {
      if HasScript(cps, inScript, order[0]) {
        assert FirstWith(cps, inScript, order, 0);
      } else {
        FirstScriptIsFirst(cps, inScript, order[1..]);
        var d := FirstScript(cps, inScript, order[1..]);
        if d.Found? {
          var k :| FirstWith(cps, inScript, order[1..], k) && order[1..][k] == d.script;
          assert FirstWith(cps, inScript, order, k + 1);
        }
        if d == MixedOther {
          forall k | 0 <= k < |order| ensures !HasScript(cps, inScript, order[k]) {
            if k > 0 {
              assert order[k] == order[1..][k - 1];
            }
          }
        }
      }
    }
  }

  /**
   * `detectScript`: `NoText` for the empty string only; otherwise the first
   * script, in `ScriptOrder`, that the cleaned text contains, else `MixedOther`.
   */
  function ScriptOf(t: seq<CodeUnit>, tables: UnicodeTables): (d: Detected)
    ensures d == NoText <==> t == []
  {
    if t == [] then NoText
    else FirstScript(CodePoints(CleanText(t, tables)), tables.inScript, ScriptOrder)
  }

  /**
   * For non-empty text the reported script is the first of `ScriptOrder`
   * with a code point in the cleaned text, and `MixedOther` means none has one.
   */
  lemma ScriptOfIsFirst(t: seq<CodeUnit>, tables: UnicodeTables)
    requires t != []
    ensures var d, cps := ScriptOf(t, tables), CodePoints(CleanText(t, tables));
      (d == MixedOther <==> forall k :: 0 <= k < |ScriptOrder| ==> !HasScript(cps, tables.inScript, ScriptOrder[k])) &&
      (d.Found? ==> exists k :: FirstWith(cps, tables.inScript, ScriptOrder, k) && ScriptOrder[k] == d.script)
  {
    FirstScriptIsFirst(CodePoints(CleanText(t, tables)), tables.inScript, ScriptOrder);
  }

  /** `detectScript`, trying the scripts one by one and returning at the first that matches. */
  method DetectScript(text: seq<CodeUnit>, tables: UnicodeTables) returns (script: Detected)
    ensures script == ScriptOf(text, tables)
  {
    if text == [] {
      return NoText;
    }
    var cps := CodePoints(CleanText(text, tables));
    var i := 0;
    assert ScriptOrder[0..] == ScriptOrder;
    while i < |ScriptOrder|
      invariant 0 <= i <= |ScriptOrder|
      invariant FirstScript(cps, tables.inScript, ScriptOrder[i..]) == FirstScript(cps, tables.inScript, ScriptOrder)
    {
      var s := ScriptOrder[i];
      if exists k :: 0 <= k < |cps| && tables.inScript(s, cps[k]) {
        return Found(s);
      }
      assert ScriptOrder[i..][1..] == ScriptOrder[i + 1..];
      i := i + 1;
    }
    return MixedOther;
  }

  /** Whitespace is never a surrogate, so whitespace-only text cleans to nothing. */
  lemma {:induction false} CleanBlank(t: seq<CodeUnit>, tables: UnicodeTables)
    requires forall i :: 0 <= i < |t| ==> IsSpaceCode(t[i])
    ensures CleanText(t, tables) == []
  {
    if t != [] {
      assert !PairAt(t, 0);
      CleanBlank(t[1..], tables);
    }
  }

  /** Text made only of whitespace is not `None` but `Mixed/Other`. */
  lemma BlankIsMixed(t: seq<CodeUnit>, tables: UnicodeTables)
    requires t != [] && forall i :: 0 <= i < |t| ==> IsSpaceCode(t[i])
    ensures ScriptOf(t, tables) == MixedOther
  {
    CleanBlank(t, tables);
    FirstScriptIsFirst([], tables.inScript, ScriptOrder);
  }

  /** `isRTLText`: some code point of the text is Arabic or Hebrew. */
  predicate IsRtlText(t: seq<CodeUnit>, tables: UnicodeTables)
  {
    exists i :: 0 <= i < |CodePoints(t)| && (tables.inScript(Arabic, CodePoints(t)[i]) || tables.inScript(Hebrew, CodePoints(t)[i]))
  }

  /** Text without lone surrogates whose primary script is Arabic or Hebrew is right-to-left. */
  lemma RtlScriptIsRtl(t: seq<CodeUnit>, tables: UnicodeTables)
    requires WellFormed(t)
    requires ScriptOf(t, tables) == Found(Arabic) || ScriptOf(t, tables) == Found(Hebrew)
    ensures IsRtlText(t, tables)
  {
    var cps := CodePoints(CleanText(t, tables));
    CleanKeepsCodePoints(t, tables);
    ScriptOfIsFirst(t, tables);
    var s := ScriptOf(t, tables).script;
    var k :| FirstWith(cps, tables.inScript, ScriptOrder, k) && ScriptOrder[k] == s;
    var i :| 0 <= i < |cps| && tables.inScript(s, cps[i]);
    assert cps[i] in CodePoints(t);
    var j :| 0 <= j < |CodePoints(t)| && CodePoints(t)[j] == cps[i];
  }

  /** `100·(t − s)/s` rounded to the nearest integer, halves upwards, as `Math.round` does. */
  predicate RoundedPercent(s: int, t: int, rate: int)
  {
    2 * s * rate - s <= 200 * (t - s) < 2 * s * rate + s
  }

  /** `calculateExpansionRate`: how much longer, in percent of the source, the translation is. */
  function ExpansionRate(sourceText: seq<CodeUnit>, translatedText: seq<CodeUnit>): (rate: int)
    ensures sourceText == [] ==> rate == 0
    ensures sourceText != [] ==> RoundedPercent(|sourceText|, |translatedText|, rate)
  {
    if sourceText == [] then 0
    else
      var s := |sourceText|;
      var n := 200 * (|translatedText| - s) + s;
      assert n == 2 * s * (n / (2 * s)) + n % (2 * s);
      n / (2 * s)
  }

  /**
   * The rate is 0 for equal lengths, positive only when the translation is
   * longer, negative only when it is shorter, and never below -100.
   */
  lemma ExpansionSign(sourceText: seq<CodeUnit>, translatedText: seq<CodeUnit>)
    requires sourceText != []
    ensures var rate := ExpansionRate(sourceText, translatedText);
      (|translatedText| == |sourceText| ==> rate == 0) &&
      (rate > 0 ==> |translatedText| > |sourceText|) &&
      (rate < 0 ==> |translatedText| < |sourceText|) &&
      rate >= -100
  {
    var rate := ExpansionRate(sourceText, translatedText);
    var s := |sourceText|;
    FactorSign(s, rate);
    FactorSign(s, rate + 100);
  }

  /** A positive factor keeps an integer's side of zero, by at least itself. */
  lemma FactorSign(s: int, x: int)
    requires s > 0
    ensures x >= 1 ==> s * x >= s
    ensures x <= -1 ==> s * x <= -s
  {
  }

  /** `\s` and `trim` on code units. */
  predicate IsSpaceUnit(c: CodeUnit)
  {
    IsSpaceCode(c)
  }

  /*
   * The word count below is stated for any whitespace test `space`; the
   * metrics use `IsSpaceUnit`.
   */

  /** Index of the first whitespace element, or `|s|`. */
  function FirstSpace<T>(s: seq<T>, space: T -> bool): (k: nat)
    ensures k <= |s| && (k < |s| ==> space(s[k]))
    ensures forall j :: 0 <= j < k ==> !space(s[j])
  {
    if s == [] || space(s[0]) then 0 else 1 + FirstSpace(s[1..], space)
  }

  /** `split(/\s+/)`: the pieces between maximal runs of whitespace. */
  function SplitOnSpaces<T>(s: seq<T>, space: T -> bool): (words: seq<seq<T>>)
    ensures |words| >= 1
    ensures forall j, i :: 0 <= j < |words| && 0 <= i < |words[j]| ==> !space(words[j][i])
    decreases |s|
  {
    var k := FirstSpace(s, space);
    if k == |s| then [s]
    else
      var rest := TrimLeft(s[k..], space);
      assert |rest| < |s| - k by {
        assert s[k..] != [] && space(s[k..][0]);
      }
      [s[..k]] + SplitOnSpaces(rest, space)
  }

  /** The `words` metric: 0 for blank text, else the number of pieces of the trimmed text. */
  function Words<T>(t: seq<T>, space: T -> bool): nat
  {
    var trimmed := Trim(t, space);
    if trimmed == [] then 0 else |SplitOnSpaces(trimmed, space)|
  }

  /**
   * Reference count of words: the positions holding a non-space whose
   * predecessor is whitespace (or, with `afterSpace`, the start).
   */
  function StartsFrom<T>(s: seq<T>, space: T -> bool, afterSpace: bool): (n: nat)
    ensures n <= |s|
  {
    if s == [] then 0
    else (if afterSpace && !space(s[0]) then 1 else 0) + StartsFrom(s[1..], space, space(s[0]))
  }

  /** Whether the position after `a` follows whitespace. */
  function AfterSpace<T>(a: seq<T>, space: T -> bool, p: bool): bool
  {
    if a == [] then p else space(a[|a| - 1])
  }

  lemma {:induction false} StartsAppend<T>(a: seq<T>, b: seq<T>, space: T -> bool, p: bool)
    ensures StartsFrom(a + b, space, p) == StartsFrom(a, space, p) + StartsFrom(b, space, AfterSpace(a, space, p))
  {
    if a != [] {
      assert (a + b)[1..] == a[1..] + b;
      StartsAppend(a[1..], b, space, space(a[0]));
    } else {
      assert a + b == b;
    }
  }

  lemma {:induction false} SpacesStartNothing<T>(x: seq<T>, space: T -> bool, p: bool)
    requires forall i :: 0 <= i < |x| ==> space(x[i])
    ensures StartsFrom(x, space, p) == 0
  {
    if x != [] {
      SpacesStartNothing(x[1..], space, true);
    }
  }

  lemma {:induction false} OneWordStarts<T>(x: seq<T>, space: T -> bool, p: bool)
    requires forall i :: 0 <= i < |x| ==> !space(x[i])
    ensures StartsFrom(x, space, p) == (if p && x != [] then 1 else 0)
  {
    if x != [] {
      OneWordStarts(x[1..], space, false);
    }
  }

  /** Leading whitespace starts no word. */
  lemma StartsIgnoreLead<T>(t: seq<T>, space: T -> bool)
    ensures StartsFrom(t, space, true) == StartsFrom(TrimLeft(t, space), space, true)
  {
    var l := TrimLeft(t, space);
    TrimLeftDropsSpaces(t, space);
    var lead := t[..|t| - |l|];
    assert t == lead + l;
    StartsAppend(lead, l, space, true);
    SpacesStartNothing(lead, space, true);
  }

  /** Trailing whitespace starts no word. */
  lemma StartsIgnoreTrail<T>(l: seq<T>, space: T -> bool, p: bool)
    ensures StartsFrom(l, space, p) == StartsFrom(TrimRight(l, space), space, p)
  {
    var tr := TrimRight(l, space);
    TrimRightDropsSpaces(l, space);
    var trail := l[|tr|..];
    assert l == tr + trail;
    StartsAppend(tr, trail, space, p);
    SpacesStartNothing(trail, space, AfterSpace(tr, space, p));
  }

  /** Trimming does not change the reference count. */
  lemma StartsIgnoreTrim<T>(t: seq<T>, space: T -> bool)
    ensures StartsFrom(t, space, true) == StartsFrom(Trim(t, space), space, true)
  {
    StartsIgnoreLead(t, space);
    StartsIgnoreTrail(TrimLeft(t, space), space, true);
  }

  /** A word up to the first whitespace starts once. */
  lemma WordPrefix<T>(s: seq<T>, space: T -> bool, k: nat)
    requires 0 < k < |s| && k == FirstSpace(s, space)
    ensures StartsFrom(s, space, true) == 1 + StartsFrom(s[k..], space, false)
  {
    assert s == s[..k] + s[k..];
    StartsAppend(s[..k], s[k..], space, true);
    OneWordStarts(s[..k], space, true);
  }

  /** A run of whitespace starts nothing; what follows it counts as after a space, and ends where the run's text ends. */
  lemma SpacePrefix<T>(x: seq<T>, space: T -> bool)
    requires x != [] && space(x[0])
    ensures var rest := TrimLeft(x, space);
      |rest| < |x| && StartsFrom(x, space, false) == StartsFrom(rest, space, true) &&
      (rest == [] ==> space(x[|x| - 1])) && (rest != [] ==> x[|x| - 1] == rest[|rest| - 1])
  {
    var rest := TrimLeft(x, space);
    var m := |x| - |rest|;
    TrimLeftDropsSpaces(x, space);
    assert x == x[..m] + rest;
    StartsAppend(x[..m], rest, space, false);
    SpacesStartNothing(x[..m], space, false);
  }

  /** Splitting text that does not start with whitespace gives one piece per word, plus one after trailing whitespace. */
  lemma {:induction false} SplitCountsStarts<T>(s: seq<T>, space: T -> bool)
    requires s == [] || !space(s[0])
    ensures |SplitOnSpaces(s, space)| == StartsFrom(s, space, true) + (if s == [] || space(s[|s| - 1]) then 1 else 0)
    decreases |s|
  {
    var k := FirstSpace(s, space);
    if k == |s| {
      OneWordStarts(s, space, true);
    } else {
      var rest := TrimLeft(s[k..], space);
      WordPrefix(s, space, k);
      SpacePrefix(s[k..], space);
      SplitCountsStarts(rest, space);
      assert |SplitOnSpaces(s, space)| == 1 + |SplitOnSpaces(rest, space)|;
      assert s[|s| - 1] == s[k..][|s| - k - 1];
    }
  }

  /** The `words` metric counts the positions where a word starts, so never more than the length. */
  lemma WordsAreStarts<T>(t: seq<T>, space: T -> bool)
    ensures Words(t, space) == StartsFrom(t, space, true) <= |t|
  {
    var trimmed := Trim(t, space);
    assert trimmed != [] ==> !space(trimmed[0]) && !space(trimmed[|trimmed| - 1]);
    StartsIgnoreTrim(t, space);
    if trimmed == [] {
      assert Words(t, space) == 0;
    } else {
      SplitCountsStarts(trimmed, space);
      assert Words(t, space) == |SplitOnSpaces(trimmed, space)|;
    }
  }

  /** The `words` metric is 0 exactly for empty or whitespace-only text. */
  lemma WordsBlank<T>(t: seq<T>, space: T -> bool)
    ensures Words(t, space) == 0 <==> forall i :: 0 <= i < |t| ==> space(t[i])
  {
    TrimEmpty(t, space);
  }

  /** The metrics `getTextMetrics` reports for one text. */
  datatype TextMetrics = TextMetrics(characters: nat, bytes: nat, words: nat, script: Detected, isRtl: bool, expansionRate: int)

  /** `getTextMetrics`; an absent source text is the empty string. */
  function GetTextMetrics(text: seq<CodeUnit>, sourceText: seq<CodeUnit>, tables: UnicodeTables): (m: TextMetrics)
    ensures m.characters == |text|
    ensures m.characters <= m.bytes <= 3 * m.characters
    ensures m.bytes == m.characters <==> IsAscii(text)
    ensures m.words == StartsFrom(text, IsSpaceUnit, true) <= m.characters
    ensures m.words == 0 <==> forall i :: 0 <= i < |text| ==> IsSpaceUnit(text[i])
    ensures m.script == NoText <==> text == []
    ensures sourceText == [] ==> m.expansionRate == 0
  {
    ByteLengthBounds(text);
    WordsAreStarts(text, IsSpaceUnit);
    WordsBlank(text, IsSpaceUnit);
    TextMetrics(|text|, ByteLength(text), Words(text, IsSpaceUnit), ScriptOf(text, tables), IsRtlText(text, tables),
                ExpansionRate(sourceText, text))
  }

  datatype Severity = Info | Warning | Error

  datatype ConstraintKind = SmsLength | CharacterLimit | MobileUiSpace

  /** One entry of `checkConstraints`' result. */
  datatype ConstraintCheck = ConstraintCheck(kind: ConstraintKind, limit: int, current: int, passed: bool, severity: Severity)

  /** The key of the constraints object each check reads. */
  function KeyOf(kind: ConstraintKind): string
  {
    match kind
    case SmsLength => "sms"
    case CharacterLimit => "characters"
    case MobileUiSpace => "uiMobile"
  }

  function Rank(kind: ConstraintKind): nat
  {
    match kind
    case SmsLength => 0
    case CharacterLimit => 1
    case MobileUiSpace => 2
  }

  /** A constraint is in force when its key is present and its value is truthy, i.e. non-zero. */
  predicate Active(constraints: map<string, int>, key: string)
  {
    key in constraints && constraints[key] != 0
  }

  /**
   * The grading every check follows: it passes exactly when within the limit;
   * it is an error exactly when it fails, a warning when it passes above 90%
   * of the limit, and information otherwise.
   */
  predicate Graded(c: ConstraintCheck)
  {
    (c.passed <==> c.current <= c.limit) &&
    (c.severity == Error <==> !c.passed) &&
    (c.severity == Warning <==> c.passed && 9 * c.limit < 10 * c.current) &&
    (c.severity == Info <==> c.passed && 10 * c.current <= 9 * c.limit)
  }

  /** One check: the error test first, then the 90% warning threshold. */
  function MakeCheck(kind: ConstraintKind, limit: int, current: int): (c: ConstraintCheck)
    ensures Graded(c) && c.kind == kind && c.limit == limit && c.current == current
  {
    var severity := if current > limit then Error else if 10 * current > 9 * limit then Warning else Info;
    ConstraintCheck(kind, limit, current, current <= limit, severity)
  }

  /** The check for one key, present only when the key is in force. */
  function CheckIf(constraints: map<string, int>, kind: ConstraintKind, current: int): (r: seq<ConstraintCheck>)
    ensures |r| == (if Active(constraints, KeyOf(kind)) then 1 else 0)
    ensures forall i :: 0 <= i < |r| ==> r[i] == MakeCheck(kind, constraints[KeyOf(kind)], current)
  {
    if Active(constraints, KeyOf(kind)) then [MakeCheck(kind, constraints[KeyOf(kind)], current)] else []
  }

  /** `['Han', 'Hiragana', 'Katakana'].includes(script)`. */
  predicate IsCjk(d: Detected)
  {
    Label(d) in ["Han", "Hiragana", "Katakana"]
  }

  /** The mobile width estimate: one unit per code unit, two for Han, Hiragana or Katakana text. */
  function MobileWidth(text: seq<CodeUnit>, tables: UnicodeTables): int
  {
    |text| * (if IsCjk(ScriptOf(text, tables)) then 2 else 1)
  }

  /** The measurement a check of `kind` compares with its limit. */
  function Pick(kind: ConstraintKind, bytes: int, characters: int, width: int): int
  {
    match kind
    case SmsLength => bytes
    case CharacterLimit => characters
    case MobileUiSpace => width
  }

  /** Each check in the order sms, characters, uiMobile, for the keys in force. */
  function ChecksFor(constraints: map<string, int>, bytes: int, characters: int, width: int): (checks: seq<ConstraintCheck>)
  {
    CheckIf(constraints, SmsLength, bytes) +
    CheckIf(constraints, CharacterLimit, characters) +
    CheckIf(constraints, MobileUiSpace, width)
  }

  /** At most three checks, one per key in force and none for any other key. */
  predicate CoversKeys(checks: seq<ConstraintCheck>, constraints: map<string, int>)
  {
    |checks| <= 3 &&
    forall kind :: Active(constraints, KeyOf(kind)) <==> exists i :: 0 <= i < |checks| && checks[i].kind == kind
  }

  /** The checks come in the order sms, characters, uiMobile. */
  predicate InKeyOrder(checks: seq<ConstraintCheck>)
  {
    forall i, j :: 0 <= i < j < |checks| ==> Rank(checks[i].kind) < Rank(checks[j].kind)
  }

  /** Every check is graded, has its key's value as limit and its own measurement as current value. */
  predicate Measures(checks: seq<ConstraintCheck>, constraints: map<string, int>, bytes: int, characters: int, width: int)
  {
    forall i :: 0 <= i < |checks| ==>
      Graded(checks[i]) && Active(constraints, KeyOf(checks[i].kind)) &&
      checks[i].limit == constraints[KeyOf(checks[i].kind)] &&
      checks[i].current == Pick(checks[i].kind, bytes, characters, width)
  }

  /** Where the checks of the three keys sit in the result. */
  lemma ChecksParts(constraints: map<string, int>, bytes: int, characters: int, width: int)
    ensures var a, b, c := CheckIf(constraints, SmsLength, bytes), CheckIf(constraints, CharacterLimit, characters),
      CheckIf(constraints, MobileUiSpace, width);
      var checks := ChecksFor(constraints, bytes, characters, width);
      |checks| == |a| + |b| + |c| &&
      forall i :: 0 <= i < |checks| ==>
        checks[i] == if i < |a| then a[i] else if i < |a| + |b| then b[i - |a|] else c[i - |a| - |b|]
  {
  }

  lemma ChecksCoverKeys(constraints: map<string, int>, bytes: int, characters: int, width: int)
    ensures CoversKeys(ChecksFor(constraints, bytes, characters, width), constraints)
  {
    var a := CheckIf(constraints, SmsLength, bytes);
    var b := CheckIf(constraints, CharacterLimit, characters);
    var checks := ChecksFor(constraints, bytes, characters, width);
    ChecksParts(constraints, bytes, characters, width);
    forall kind | Active(constraints, KeyOf(kind))
      ensures exists i :: 0 <= i < |checks| && checks[i].kind == kind
    {
      var i := if kind == SmsLength then 0 else if kind == CharacterLimit then |a| else |a| + |b|;
      assert checks[i].kind == kind;
    }
  }

  lemma ChecksInOrder(constraints: map<string, int>, bytes: int, characters: int, width: int)
    ensures InKeyOrder(ChecksFor(constraints, bytes, characters, width))
  {
    ChecksParts(constraints, bytes, characters, width);
  }

  lemma ChecksMeasure(constraints: map<string, int>, bytes: int, characters: int, width: int)
    ensures Measures(ChecksFor(constraints, bytes, characters, width), constraints, bytes, characters, width)
  {
    ChecksParts(constraints, bytes, characters, width);
  }

  /**
   * `checkConstraints`: one check per key in force among sms (UTF-8 bytes),
   * characters (code units) and uiMobile (the width estimate), in that order.
   */
  function CheckConstraints(text: seq<CodeUnit>, constraints: map<string, int>, tables: UnicodeTables): (checks: seq<ConstraintCheck>)
    ensures CoversKeys(checks, constraints) && InKeyOrder(checks)
    ensures Measures(checks, constraints, ByteLength(text), |text|, MobileWidth(text, tables))
  {
    var metrics := GetTextMetrics(text, [], tables);
    var width := metrics.characters * (if IsCjk(metrics.script) then 2 else 1);
    ChecksCoverKeys(constraints, metrics.bytes, metrics.characters, width);
    ChecksInOrder(constraints, metrics.bytes, metrics.characters, width);
    ChecksMeasure(constraints, metrics.bytes, metrics.characters, width);
    ChecksFor(constraints, metrics.bytes, metrics.characters, width)
  }

  /** Whether two constraint objects agree on `key`: both out of force, or both in force with the same limit. */
  predicate AgreeOn(c1: map<string, int>, c2: map<string, int>, key: string)
  {
    Active(c1, key) == Active(c2, key) && (Active(c1, key) ==> c1[key] == c2[key])
  }

  /** Keys other than sms, characters and uiMobile are ignored, and a zero limit is the same as none. */
  lemma OnlyThreeKeys(text: seq<CodeUnit>, c1: map<string, int>, c2: map<string, int>, tables: UnicodeTables)
    requires AgreeOn(c1, c2, "sms") && AgreeOn(c1, c2, "characters") && AgreeOn(c1, c2, "uiMobile")
    ensures CheckConstraints(text, c1, tables) == CheckConstraints(text, c2, tables)
  {
    assert KeyOf(SmsLength) == "sms" && KeyOf(CharacterLimit) == "characters" && KeyOf(MobileUiSpace) == "uiMobile";
  }

  /** A recommended range of expansion rates. */
  datatype Guideline = Guideline(min: int, max: int, typical: int)

  const Guidelines: map<string, Guideline> := map[
    "Latin-to-Han" := Guideline(-30, -10, -20),
    "Latin-to-Arabic" := Guideline(0, 25, 15),
    "Latin-to-Cyrillic" := Guideline(10, 40, 25),
    "Latin-to-Latin" := Guideline(20, 50, 35),
    "default" := Guideline(-10, 30, 10)
  ]

  /** `getExpansionGuidelines`: the entry for `source-to-target`, or the default one. */
  function ExpansionGuidelines(sourceScript: string, targetScript: string): (g: Guideline)
    ensures g.min <= g.typical <= g.max
  {
    var key := sourceScript + "-to-" + targetScript;
    if key in Guidelines then Guidelines[key] else Guidelines["default"]
  }

  /** No label `detectScript` reports contains a hyphen. */
  lemma LabelHasNoHyphen(d: Detected)
    ensures '-' !in Label(d)
  {
  }

  /** The mobile width doubles exactly for text detected as Han, Hiragana or Katakana. */
  lemma CjkScripts(d: Detected)
    ensures IsCjk(d) <==> d == Found(Han) || d == Found(Hiragana) || d == Found(Katakana)
  {
  }

  /**
   * A listed key `Latin-to-b` is `s-to-t` only for `s` "Latin" and `t` `b`:
   * its only hyphens are the two at 5 and 8, and `s-to-t` has hyphens at `|s|` and `|s| + 3`.
   */
  lemma ListedKeySplits(s: string, t: string, b: string)
    requires b in ["Han", "Arabic", "Cyrillic", "Latin"]
    requires s + "-to-" + t == "Latin" + "-to-" + b
    ensures s == "Latin" && t == b
  {
    var key := "Latin" + "-to-" + b;
    assert key[|s|] == (s + "-to-" + t)[|s|] == '-';
    assert key[|s| + 3] == (s + "-to-" + t)[|s| + 3] == '-';
    assert forall i :: 0 <= i < |key| && key[i] == '-' ==> i == 5 || i == 8;
    assert s == key[..|s|] && t == key[|s| + 4..];
  }

  /** The four Latin pairs get their own entries. */
  lemma LatinPairs()
    ensures ExpansionGuidelines("Latin", "Han") == Guideline(-30, -10, -20)
    ensures ExpansionGuidelines("Latin", "Arabic") == Guideline(0, 25, 15)
    ensures ExpansionGuidelines("Latin", "Cyrillic") == Guideline(10, 40, 25)
    ensures ExpansionGuidelines("Latin", "Latin") == Guideline(20, 50, 35)
  {
    assert "Latin" + "-to-" + "Han" == "Latin-to-Han";
    assert "Latin" + "-to-" + "Arabic" == "Latin-to-Arabic";
    assert "Latin" + "-to-" + "Cyrillic" == "Latin-to-Cyrillic";
    assert "Latin" + "-to-" + "Latin" == "Latin-to-Latin";
  }

  /** Every other pair of script names gets the default entry. */
  lemma OtherPairsDefault(a: string, b: string)
    requires !(a == "Latin" && b in ["Han", "Arabic", "Cyrillic", "Latin"])
    ensures ExpansionGuidelines(a, b) == Guideline(-10, 30, 10)
  {
    var key := a + "-to-" + b;
    assert key != "default" by {
      assert key[|a|] == '-';
    }
    forall other | other in ["Han", "Arabic", "Cyrillic", "Latin"]
      ensures key != "Latin" + "-to-" + other
    {
      if key == "Latin" + "-to-" + other {
        ListedKeySplits(a, b, other);
      }
    }
    assert "Latin" + "-to-" + "Han" == "Latin-to-Han";
    assert "Latin" + "-to-" + "Arabic" == "Latin-to-Arabic";
    assert "Latin" + "-to-" + "Cyrillic" == "Latin-to-Cyrillic";
    assert "Latin" + "-to-" + "Latin" == "Latin-to-Latin";
  }
}
