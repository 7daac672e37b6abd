/**
 * ECMAScript strings as UTF-16 code units, the code points string iteration
 * and `u`-flag regular expressions see in them, and the UTF-8 bytes
 * `TextEncoder.encode` produces (section 3 of RFC 3629; a lone surrogate is
 * first replaced by U+FFFD, as the WHATWG Encoding Standard converts the
 * string to scalar values).
 */
module Utf16 {

  /** One element of an ECMAScript string: `.length` counts these. */
  type CodeUnit = c: int | 0 <= c < 0x1_0000

  type Byte = b: int | 0 <= b < 0x100

  predicate IsHighSurrogate(c: int)
  {
    0xD800 <= c <= 0xDBFF
  }

  predicate IsLowSurrogate(c: int)
  {
    0xDC00 <= c <= 0xDFFF
  }

  predicate IsSurrogate(c: int)
  {
    0xD800 <= c <= 0xDFFF
  }

  /** A high surrogate at `i` followed by a low one: the two units are one code point. */
  predicate PairAt(t: seq<CodeUnit>, i: nat)
  {
    i + 1 < |t| && IsHighSurrogate(t[i]) && IsLowSurrogate(t[i + 1])
  }

  /** The supplementary code point a surrogate pair stands for. */
  function Combine(hi: int, lo: int): (cp: int)
    requires IsHighSurrogate(hi) && IsLowSurrogate(lo)
    ensures 0x1_0000 <= cp <= 0x10_FFFF
  {
    0x1_0000 + (hi - 0xD800) * 0x400 + (lo - 0xDC00)
  }

  /**
   * The code points of a string, in order: a surrogate pair gives one
   * supplementary code point, every other unit (a lone surrogate included)
   * gives itself.
   */
  function CodePoints(t: seq<CodeUnit>): (cps: seq<int>)
    ensures |cps| <= |t|
    ensures forall i :: 0 <= i < |cps| ==> 0 <= cps[i] <= 0x10_FFFF
  {
    if t == [] then []
    else if PairAt(t, 0) then [Combine(t[0], t[1])] + CodePoints(t[2..])
    else [t[0]] + CodePoints(t[1..])
  }

  /** The UTF-16 encoding of one code point. */
  function UnitsOf(cp: int): (r: seq<CodeUnit>)
    requires 0 <= cp <= 0x10_FFFF
    ensures 1 <= |r| <= 2
  {
    if cp < 0x1_0000 then [cp]
    else [0xD800 + (cp - 0x1_0000) / 0x400, 0xDC00 + (cp - 0x1_0000) % 0x400]
  }

  function UnitsOfAll(cps: seq<int>): (r: seq<CodeUnit>)
    requires forall i :: 0 <= i < |cps| ==> 0 <= cps[i] <= 0x10_FFFF
  {
    if cps == [] then [] else UnitsOf(cps[0]) + UnitsOfAll(cps[1..])
  }

  /** Splitting a string into code points loses nothing: encoding them again gives the same units. */
  lemma {:induction false} CodePointsRoundTrip(t: seq<CodeUnit>)
    ensures UnitsOfAll(CodePoints(t)) == t
  {
    if t != [] {
      var cps := CodePoints(t);
      if PairAt(t, 0) {
        CodePointsRoundTrip(t[2..]);
        assert cps[1..] == CodePoints(t[2..]);
        assert UnitsOf(cps[0]) == t[..2];
        assert t == t[..2] + t[2..];
      } else {
        CodePointsRoundTrip(t[1..]);
        assert cps[1..] == CodePoints(t[1..]);
        assert t == [t[0]] + t[1..];
      }
    }
  }

  /** No lone surrogate: every code point is a Unicode scalar value. */
  predicate WellFormed(t: seq<CodeUnit>)
  {
    forall i :: 0 <= i < |CodePoints(t)| ==> !IsSurrogate(CodePoints(t)[i])
  }

  /** What the encoder turns a code point into: a lone surrogate becomes U+FFFD. */
  function ScalarOf(cp: int): (v: int)
    requires 0 <= cp <= 0x10_FFFF
    ensures 0 <= v <= 0x10_FFFF && !IsSurrogate(v)
    ensures !IsSurrogate(cp) ==> v == cp
  {
    if IsSurrogate(cp) then 0xFFFD else cp
  }

  /** The UTF-8 form of one scalar value, section 3 of RFC 3629. */
  function EncodeScalar(v: int): (r: seq<Byte>)
    requires 0 <= v <= 0x10_FFFF
    ensures |r| == (if v < 0x80 then 1 else if v < 0x800 then 2 else if v < 0x1_0000 then 3 else 4)
  {
    if v < 0x80 then [v]
    else if v < 0x800 then [0xC0 + v / 0x40, 0x80 + v % 0x40]
    else if v < 0x1_0000 then [0xE0 + v / 0x1000, 0x80 + (v / 0x40) % 0x40, 0x80 + v % 0x40]
    else [0xF0 + v / 0x4_0000, 0x80 + (v / 0x1000) % 0x40, 0x80 + (v / 0x40) % 0x40, 0x80 + v % 0x40]
  }

  /** The number of bytes a sequence starting with lead byte `b` has, by its high bits. */
  function SequenceLength(b: Byte): nat
  {
    if b < 0x80 then 1 else if 0xC0 <= b < 0xE0 then 2 else if 0xE0 <= b < 0xF0 then 3
    else if 0xF0 <= b < 0xF8 then 4 else 0
  }

  predicate IsContinuation(b: Byte)
  {
    0x80 <= b < 0xC0
  }

  /** The scalar value a well-shaped byte sequence carries: six payload bits per continuation byte. */
  function DecodeScalar(b: seq<int>): int
    requires 1 <= |b| <= 4
  {
    if |b| == 1 then b[0]
    else if |b| == 2 then (b[0] - 0xC0) * 0x40 + (b[1] - 0x80)
    else if |b| == 3 then (b[0] - 0xE0) * 0x1000 + (b[1] - 0x80) * 0x40 + (b[2] - 0x80)
    else (b[0] - 0xF0) * 0x4_0000 + (b[1] - 0x80) * 0x1000 + (b[2] - 0x80) * 0x40 + (b[3] - 0x80)
  }

  /** Six low bits and the rest. */
  lemma SplitSix(v: nat)
    ensures v == (v / 0x40) * 0x40 + v % 0x40
  {
  }

  /**
   * The encoding of a scalar value is a well-formed UTF-8 sequence: its lead
   * byte announces its length, the rest are continuation bytes, and decoding
   * gives the value back.
   */
  lemma EncodeScalarDecodes(v: int)
    requires 0 <= v <= 0x10_FFFF
    ensures var r := EncodeScalar(v);
      SequenceLength(r[0]) == |r| && (forall i :: 1 <= i < |r| ==> IsContinuation(r[i])) && DecodeScalar(r) == v
  {
    SplitSix(v);
    if 0x800 <= v {
      SplitSix(v / 0x40);
      assert v / 0x40 / 0x40 == v / 0x1000;
      if 0x1_0000 <= v {
        SplitSix(v / 0x1000);
        assert v / 0x1000 / 0x40 == v / 0x4_0000;
      }
    }
  }

  function EncodeAll(cps: seq<int>): (r: seq<Byte>)
    requires forall i :: 0 <= i < |cps| ==> 0 <= cps[i] <= 0x10_FFFF
  {
    if cps == [] then [] else EncodeScalar(ScalarOf(cps[0])) + EncodeAll(cps[1..])
  }

  /** `new TextEncoder().encode(text)`. */
  function Utf8Encode(t: seq<CodeUnit>): seq<Byte>
  {
    EncodeAll(CodePoints(t))
  }

  /** `getByteLength`: the length of the UTF-8 encoding. */
  function ByteLength(t: seq<CodeUnit>): nat
  {
    |Utf8Encode(t)|
  }

  predicate IsAscii(t: seq<CodeUnit>)
  {
    forall i :: 0 <= i < |t| ==> t[i] < 0x80
  }

  /**
   * A string takes between one and three bytes per code unit, and exactly one
   * per unit precisely when every unit is ASCII.
   */
  lemma {:induction false} ByteLengthBounds(t: seq<CodeUnit>)
    ensures |t| <= ByteLength(t) <= 3 * |t|
    ensures ByteLength(t) == |t| <==> IsAscii(t)
  {
    if t != [] {
      var cps := CodePoints(t);
      var n := if PairAt(t, 0) then 2 else 1;
      var rest := t[n..];
      assert cps[1..] == CodePoints(rest);
      assert Utf8Encode(t) == EncodeScalar(ScalarOf(cps[0])) + Utf8Encode(rest);
      ByteLengthBounds(rest);
      if IsAscii(t) {
        assert t[0] < 0x80;
        assert IsAscii(rest) by {
          forall i | 0 <= i < |rest| ensures rest[i] < 0x80 {
            assert rest[i] == t[i + n];
          }
        }
      }
      if ByteLength(t) == |t| {
        forall i | 0 <= i < |t| ensures t[i] < 0x80 {
          if i > 0 {
            assert t[i] == rest[i - 1];
          }
        }
      }
    }
  }
}
