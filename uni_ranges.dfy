/**
 * The range compression at the heart of `unipropgen.py`: every code point
 * list of a property table becomes the text of a regular-expression
 * character-class body, written with `uniformat`'s escapes, and (when the
 * table is inverted) also the text of its complement over `[0, maxUnicode]`.
 *
 * Besides the escape function and the run/complement computation, the
 * module defines how such a text is read back: Python's string-literal
 * escapes `\xHH`, `\uHHHH` and `\UHHHHHHHH`, then the class body as a list
 * of atoms and `a-b` ranges. The round-trip lemmas say that reading the
 * generated text gives back exactly the runs that were written.
 */
module UniRanges {
  import opened Wrappers
  import opened JsString

  // ---------------------------------------------------------------------
  // Hexadecimal digits
  // ---------------------------------------------------------------------

  function HexDigit(d: nat): char
    requires d < 16
  {
    "0123456789abcdef"[d]
  }

  predicate IsHexDigit(c: char) {
    '0' <= c <= '9' || 'a' <= c <= 'f' || 'A' <= c <= 'F'
  }

  predicate AllHex(s: String) {
    forall k :: 0 <= k < |s| ==> IsHexDigit(s[k])
  }

  function DigitValue(c: char): (d: nat)
    requires IsHexDigit(c)
    ensures d < 16
  {
    if '0' <= c <= '9' then c as nat - '0' as nat
    else if 'a' <= c <= 'f' then c as nat - 'a' as nat + 10
    else c as nat - 'A' as nat + 10
  }

  lemma DigitRoundTrip(d: nat)
    requires d < 16
    ensures IsHexDigit(HexDigit(d)) && DigitValue(HexDigit(d)) == d
  {
  }

  function Pow16(n: nat): (r: nat)
    ensures r >= 1
  {
    if n == 0 then 1 else 16 * Pow16(n - 1)
  }

  lemma Pow16Values()
    ensures Pow16(2) == 0x100 && Pow16(4) == 0x10000 && Pow16(8) == 0x1_0000_0000
  {
    assert Pow16(1) == 16;
    assert Pow16(2) == 0x100;
    assert Pow16(3) == 0x1000;
    assert Pow16(4) == 0x10000;
    assert Pow16(5) == 0x10_0000;
    assert Pow16(6) == 0x100_0000;
    assert Pow16(7) == 0x1000_0000;
  }

  /** The lowest `width` hexadecimal digits of `v`, most significant first. */
  function HexDigits(v: nat, width: nat): (r: String)
    ensures |r| == width && AllHex(r)
  {
    if width == 0 then [] else HexDigits(v / 16, width - 1) + [HexDigit(v % 16)]
  }

  /** The number of hexadecimal digits `v` needs. */
  function HexLength(v: nat): (r: nat)
    ensures r >= 1 && v < Pow16(r)
  {
    if v < 16 then 1 else 1 + HexLength(v / 16)
  }

  /** Python's `"%0Nx" % v`: lower-case digits, zero-padded to at least `width`. */
  function Hex(v: nat, width: nat): String {
    HexDigits(v, if HexLength(v) > width then HexLength(v) else width)
  }

  /** The value of a string of hexadecimal digits. */
  function HexValue(s: String): nat
    requires AllHex(s)
  {
    if s == [] then 0 else 16 * HexValue(s[..|s| - 1]) + DigitValue(s[|s| - 1])
  }

  lemma {:induction false} HexDigitsValue(v: nat, width: nat)
    requires v < Pow16(width)
    ensures HexValue(HexDigits(v, width)) == v
  {
    if width > 0 {
      HexDigitsValue(v / 16, width - 1);
      var s := HexDigits(v, width);
      assert s[..|s| - 1] == HexDigits(v / 16, width - 1);
      DigitRoundTrip(v % 16);
    }
  }

  lemma {:induction false} HexLengthBound(v: nat, width: nat)
    requires width >= 1 && v < Pow16(width)
    ensures HexLength(v) <= width
  {
    if v >= 16 {
      HexLengthBound(v / 16, width - 1);
    }
  }

  /** A value that fits in `width` digits is written with exactly `width` digits, and reads back. */
  lemma HexFits(v: nat, width: nat)
    requires width >= 1 && v < Pow16(width)
    ensures Hex(v, width) == HexDigits(v, width)
    ensures |Hex(v, width)| == width && AllHex(Hex(v, width)) && HexValue(Hex(v, width)) == v
  {
    HexLengthBound(v, width);
    HexDigitsValue(v, width);
  }

  // ---------------------------------------------------------------------
  // uniformat
  // ---------------------------------------------------------------------

  /** The code points of `-&[\]^|~`, which are always written escaped. */
  predicate IsGroupEscape(value: nat) {
    value == 0x2D || value == 0x26 || value == 0x5B || value == 0x5C
    || value == 0x5D || value == 0x5E || value == 0x7C || value == 0x7E
  }

  /** The largest code point Python's `\U` escape accepts. */
  const MaxCodePoint: nat := 0x10FFFF

  /**
   * The escape text for one code point: a group-escape character as
   * `\x5c\xHH` (an escaped backslash and the character), anything up to
   * 0xFF as `\xHH`, up to 0xFFFF as `\uHHHH`, and above as `\UHHHHHHHH`.
   */
  function Uniformat(value: nat): String {
    if IsGroupEscape(value) then "\\x" + Hex(0x5c, 2) + "\\x" + Hex(value, 2)
    else if value <= 0xFF then "\\x" + Hex(value, 2)
    else if value <= 0xFFFF then "\\u" + Hex(value, 4)
    else "\\U" + Hex(value, 8)
  }

  /** The backslash written inside the group-escape form. */
  lemma BackslashHex()
    ensures Hex(0x5c, 2) == "5c"
  {
    Pow16Values();
    HexFits(0x5c, 2);
    assert HexDigits(0x5c, 2) == HexDigits(5, 1) + ['c'];
    assert HexDigits(5, 1) == HexDigits(0, 0) + ['5'];
  }

  // ---------------------------------------------------------------------
  // Reading the text back
  // ---------------------------------------------------------------------

  predicate EscapeAt(s: String, tag: char, digits: nat) {
    |s| >= 2 + digits && s[0] == '\\' && s[1] == tag && AllHex(s[2..2 + digits])
  }

  /**
   * The code points of a Python string literal body whose only escapes are
   * `\xHH`, `\uHHHH` and `\UHHHHHHHH`; every other character stands for itself.
   */
  function Unescape(s: String): seq<nat>
    decreases |s|
  {
    if s == [] then [] else var (c, n) := NextUnit(s); [c] + Unescape(s[n..])
  }

  /** The first code point of a non-empty literal body and the number of characters it takes. */
  function NextUnit(s: String): (u: (nat, nat))
    requires s != []
    ensures 1 <= u.1 <= |s|
  {
    if EscapeAt(s, 'x', 2) then (HexValue(s[2..4]), 4)
    else if EscapeAt(s, 'u', 4) then (HexValue(s[2..6]), 6)
    else if EscapeAt(s, 'U', 8) then (HexValue(s[2..10]), 10)
    else (s[0] as nat, 1)
  }

  /** What a code point's escape decodes to: the character, after a backslash if it is a group escape. */
  function Encoded(value: nat): seq<nat> {
    if IsGroupEscape(value) then [0x5C, value] else [value]
  }

  /** A `\\x`, `\\u` or `\\U` escape with the right number of digits decodes to one code point. */
  lemma UnescapeHex(tag: char, h: String, rest: String)
    requires (tag == 'x' && |h| == 2) || (tag == 'u' && |h| == 4) || (tag == 'U' && |h| == 8)
    requires AllHex(h)
    ensures Unescape(['\\', tag] + h + rest) == [HexValue(h)] + Unescape(rest)
  {
    var s := ['\\', tag] + h + rest;
    assert s[2..2 + |h|] == h;
    assert tag != 'x' ==> !EscapeAt(s, 'x', 2);
    assert tag == 'U' ==> !EscapeAt(s, 'u', 4);
    assert NextUnit(s) == (HexValue(h), 2 + |h|);
    assert s[2 + |h|..] == rest;
  }

  lemma BackslashValue()
    ensures AllHex("5c") && HexValue("5c") == 0x5C
  {
    assert "5c"[..1] == "5";
    assert "5"[..0] == "";
  }

  lemma Regroup(a: String, b: String, c: String, d: String, rest: String)
    ensures a + b + c + d + rest == a + b + (c + d + rest)
  {
  }

  lemma GroupEscapeDecodes(value: nat, rest: String)
    requires IsGroupEscape(value)
    ensures Unescape(Uniformat(value) + rest) == [0x5C, value] + Unescape(rest)
  {
    Pow16Values();
    BackslashHex();
    BackslashValue();
    HexFits(value, 2);
    var h := Hex(value, 2);
    var t := "\\x" + h + rest;
    calc {
      Unescape(Uniformat(value) + rest);
      { assert Uniformat(value) == "\\x" + "5c" + "\\x" + h;
        Regroup("\\x", "5c", "\\x", h, rest); }
      Unescape("\\x" + "5c" + t);
      { UnescapeHex('x', "5c", t); }
      [0x5C] + Unescape(t);
      { UnescapeHex('x', h, rest); }
      [0x5C] + ([value] + Unescape(rest));
    }
  }

  lemma PlainEscapeDecodes(value: nat, rest: String)
    requires !IsGroupEscape(value) && value <= MaxCodePoint
    ensures Unescape(Uniformat(value) + rest) == [value] + Unescape(rest)
  {
    Pow16Values();
    if value <= 0xFF {
      HexFits(value, 2);
      assert Uniformat(value) + rest == ['\\', 'x'] + Hex(value, 2) + rest;
      UnescapeHex('x', Hex(value, 2), rest);
    } else if value <= 0xFFFF {
      HexFits(value, 4);
      assert Uniformat(value) + rest == ['\\', 'u'] + Hex(value, 4) + rest;
      UnescapeHex('u', Hex(value, 4), rest);
    } else {
      HexFits(value, 8);
      assert Uniformat(value) + rest == ['\\', 'U'] + Hex(value, 8) + rest;
      UnescapeHex('U', Hex(value, 8), rest);
    }
  }

  /** Decoding an escape gives back its code point, after a backslash for a group escape. */
  lemma EscapeDecodes(value: nat, rest: String)
    requires value <= MaxCodePoint
    ensures Unescape(Uniformat(value) + rest) == Encoded(value) + Unescape(rest)
  {
    if IsGroupEscape(value) {
      GroupEscapeDecodes(value, rest);
    } else {
      PlainEscapeDecodes(value, rest);
    }
  }

  /** One atom of a class body: a backslash and the character it escapes, or one character. */
  function Atom(cps: seq<nat>): (a: (nat, nat))
    requires |cps| > 0
    ensures 1 <= a.1 <= |cps|
  {
    if cps[0] == 0x5C && |cps| >= 2 then (cps[1], 2) else (cps[0], 1)
  }

  /**
   * A character-class body as a list of inclusive ranges: `a-b` is a range,
   * any other atom a one-point range, and a `-` at the very end a literal.
   */
  function ClassRanges(cps: seq<nat>): seq<(nat, nat)>
    decreases |cps|
  {
    if cps == [] then [] else var (r, n) := NextRange(cps); [r] + ClassRanges(cps[n..])
  }

  /** The first item of a non-empty class body and the number of code points it takes. */
  function NextRange(cps: seq<nat>): (r: ((nat, nat), nat))
    requires cps != []
    ensures 1 <= r.1 <= |cps|
  {
    var (a, n) := Atom(cps);
    if |cps| >= n + 2 && cps[n] == 0x2D then
      var (b, m) := Atom(cps[n + 1..]);
      ((a, b), n + 1 + m)
    else ((a, a), n)
  }

  // ---------------------------------------------------------------------
  // Range texts
  // ---------------------------------------------------------------------

  /** A one-point range as a single escape, a longer one as `a-b`. */
  function RangeText(r: (nat, nat)): String {
    if r.0 == r.1 then Uniformat(r.0) else Uniformat(r.0) + "-" + Uniformat(r.1)
  }

  /** The text of each range, in order. */
  function Texts(rs: seq<(nat, nat)>): (ts: seq<String>)
    ensures |ts| == |rs|
  {
    if rs == [] then [] else [RangeText(rs[0])] + Texts(rs[1..])
  }

  lemma {:induction false} TextsAppend(a: seq<(nat, nat)>, b: seq<(nat, nat)>)
    ensures Texts(a + b) == Texts(a) + Texts(b)
  {
    if a == [] {
      assert a + b == b;
    } else {
      assert (a + b)[1..] == a[1..] + b;
      TextsAppend(a[1..], b);
    }
  }

  lemma TextsSnoc(rs: seq<(nat, nat)>, r: (nat, nat))
    ensures Texts(rs + [r]) == Texts(rs) + [RangeText(r)]
  {
    TextsAppend(rs, [r]);
    assert Texts([r]) == [RangeText(r)] + Texts([]);
  }

  /** `''.join(ts)`. */
  function Concat(ts: seq<String>): String {
    if ts == [] then [] else ts[0] + Concat(ts[1..])
  }

  predicate InCodeSpace(rs: seq<(nat, nat)>) {
    forall i :: 0 <= i < |rs| ==> rs[i].0 <= MaxCodePoint && rs[i].1 <= MaxCodePoint
  }

  function EncodedRange(r: (nat, nat)): seq<nat> {
    if r.0 == r.1 then Encoded(r.0) else Encoded(r.0) + [0x2D] + Encoded(r.1)
  }

  function EncodedRanges(rs: seq<(nat, nat)>): seq<nat> {
    if rs == [] then [] else EncodedRange(rs[0]) + EncodedRanges(rs[1..])
  }

  lemma DashDecodes(t: String)
    ensures Unescape("-" + t) == [0x2D] + Unescape(t)
  {
    var s := "-" + t;
    assert NextUnit(s) == (0x2D, 1);
    assert s[1..] == t;
  }

  lemma PairRegroup(a: String, b: String, rest: String)
    ensures a + "-" + b + rest == a + ("-" + (b + rest))
  {
  }

  lemma SeqRegroup(a: seq<nat>, b: seq<nat>, c: seq<nat>, d: seq<nat>)
    ensures a + (b + (c + d)) == a + b + c + d
  {
  }

  lemma RangeDecodes(r: (nat, nat), rest: String)
    requires r.0 <= MaxCodePoint && r.1 <= MaxCodePoint
    ensures Unescape(RangeText(r) + rest) == EncodedRange(r) + Unescape(rest)
  {
    if r.0 == r.1 {
      EscapeDecodes(r.0, rest);
    } else {
      var a := Uniformat(r.0);
      var b := Uniformat(r.1);
      var t := b + rest;
      PairRegroup(a, b, rest);
      EscapeDecodes(r.0, "-" + t);
      DashDecodes(t);
      EscapeDecodes(r.1, rest);
      SeqRegroup(Encoded(r.0), [0x2D], Encoded(r.1), Unescape(rest));
    }
  }

  lemma {:induction false} TextsDecode(rs: seq<(nat, nat)>)
    requires InCodeSpace(rs)
    ensures Unescape(Concat(Texts(rs))) == EncodedRanges(rs)
  {
    if rs != [] {
      TextsDecode(rs[1..]);
      RangeDecodes(rs[0], Concat(Texts(rs[1..])));
    }
  }

  lemma AtomEncoded(value: nat, rest: seq<nat>)
    ensures Atom(Encoded(value) + rest) == (value, |Encoded(value)|)
    ensures (Encoded(value) + rest)[|Encoded(value)|..] == rest
    ensures (Encoded(value) + rest)[0] != 0x2D
  {
  }

  lemma ClassPointStep(a: nat, rest: seq<nat>)
    requires rest == [] || rest[0] != 0x2D
    ensures ClassRanges(Encoded(a) + rest) == [(a, a)] + ClassRanges(rest)
  {
    var cps := Encoded(a) + rest;
    AtomEncoded(a, rest);
    assert NextRange(cps) == ((a, a), |Encoded(a)|);
  }

  lemma ClassPairStep(a: nat, b: nat, rest: seq<nat>)
    ensures ClassRanges(Encoded(a) + ([0x2D] + (Encoded(b) + rest))) == [(a, b)] + ClassRanges(rest)
  {
    var tail := Encoded(b) + rest;
    var cps := Encoded(a) + ([0x2D] + tail);
    var n := |Encoded(a)|;
    AtomEncoded(a, [0x2D] + tail);
    assert cps[n] == 0x2D && cps[n + 1..] == tail;
    AtomEncoded(b, rest);
    assert NextRange(cps) == ((a, b), n + 1 + |Encoded(b)|);
    assert cps[n + 1 + |Encoded(b)|..] == rest;
  }

  lemma ClassRangeStep(r: (nat, nat), rest: seq<nat>)
    requires rest == [] || rest[0] != 0x2D
    ensures ClassRanges(EncodedRange(r) + rest) == [r] + ClassRanges(rest)
  {
    if r.0 == r.1 {
      ClassPointStep(r.0, rest);
    } else {
      assert EncodedRange(r) + rest == Encoded(r.0) + ([0x2D] + (Encoded(r.1) + rest));
      ClassPairStep(r.0, r.1, rest);
    }
  }

  lemma {:induction false} ClassRangesRead(rs: seq<(nat, nat)>)
    ensures ClassRanges(EncodedRanges(rs)) == rs
  {
    if rs != [] {
      ClassRangesRead(rs[1..]);
      var rest := EncodedRanges(rs[1..]);
      if rs[1..] != [] {
        assert rest[0] == EncodedRange(rs[1])[0];
      }
      ClassRangeStep(rs[0], rest);
    }
  }

  /** Reading the joined range texts as a class body gives back exactly the ranges. */
  lemma RangesRoundTrip(rs: seq<(nat, nat)>)
    requires InCodeSpace(rs)
    ensures ClassRanges(Unescape(Concat(Texts(rs)))) == rs
  {
    TextsDecode(rs);
    ClassRangesRead(rs);
  }

  // ---------------------------------------------------------------------
  // Sorting a code point list
  // ---------------------------------------------------------------------

  predicate Sorted(v: seq<nat>) {
    forall i, j :: 0 <= i < j < |v| ==> v[i] <= v[j]
  }

  predicate Increasing(v: seq<nat>) {
    forall i, j :: 0 <= i < j < |v| ==> v[i] < v[j]
  }

  predicate Distinct(v: seq<nat>) {
    forall i, j :: 0 <= i < j < |v| ==> v[i] != v[j]
  }

  function Insert(x: nat, s: seq<nat>): (r: seq<nat>)
    ensures multiset(r) == multiset(s) + multiset{x}
  {
    if s == [] || x <= s[0] then [x] + s
    else
      assert s == [s[0]] + s[1..];
      [s[0]] + Insert(x, s[1..])
  }

  lemma {:induction false} InsertSorted(x: nat, s: seq<nat>)
    requires Sorted(s)
    ensures Sorted(Insert(x, s))
  {
    if s != [] && x > s[0] {
      var t := Insert(x, s[1..]);
      InsertSorted(x, s[1..]);
      InsertFrom(x, s);
      forall y: nat | y in t ensures s[0] <= y {
        assert y == x || y in s[1..];
      }
      LeadingFirst(s[0], t, false);
    }
  }

  lemma {:induction false} InsertIncreasing(x: nat, s: seq<nat>)
    requires Increasing(s) && x !in s
    ensures Increasing(Insert(x, s))
  {
    if s != [] && x > s[0] {
      var t := Insert(x, s[1..]);
      InsertIncreasing(x, s[1..]);
      InsertFrom(x, s);
      forall y: nat | y in t ensures s[0] < y {
        assert y == x || y in s[1..];
      }
      LeadingFirst(s[0], t, true);
    }
  }

  /** Inserting after the head: the head stays first and the rest holds the tail and `x`. */
  lemma InsertFrom(x: nat, s: seq<nat>)
    requires s != [] && x > s[0]
    ensures Insert(x, s) == [s[0]] + Insert(x, s[1..])
    ensures forall y :: y in Insert(x, s[1..]) ==> y == x || y in s[1..]
  {
    var t := Insert(x, s[1..]);
    forall y: nat | y in t ensures y == x || y in s[1..] {
      assert y in multiset(t);
    }
  }

  lemma LeadingFirst(a: nat, t: seq<nat>, strict: bool)
    requires forall y :: y in t ==> a <= y && (strict ==> a < y)
    ensures Sorted(t) ==> Sorted([a] + t)
    ensures strict && Increasing(t) ==> Increasing([a] + t)
  {
    var r := [a] + t;
    assert forall j :: 0 < j < |r| ==> r[j] == t[j - 1] && r[j] in t;
  }

  /** `list.sort()` on code points: ascending order, the same elements. */
  function SortCodes(v: seq<nat>): (r: seq<nat>)
    ensures multiset(r) == multiset(v)
  {
    if v == [] then []
    else
      assert v == [v[0]] + v[1..];
      Insert(v[0], SortCodes(v[1..]))
  }

  lemma {:induction false} SortCodesOrdered(v: seq<nat>)
    ensures Sorted(SortCodes(v))
    ensures Distinct(v) ==> Increasing(SortCodes(v))
  {
    if v != [] {
      var t := SortCodes(v[1..]);
      SortCodesOrdered(v[1..]);
      InsertSorted(v[0], t);
      if Distinct(v) {
        assert Distinct(v[1..]);
        assert v[0] !in v[1..];
        assert v[0] !in multiset(t);
        InsertIncreasing(v[0], t);
      }
    }
  }

  // ---------------------------------------------------------------------
  // Runs and their complement
  // ---------------------------------------------------------------------

  /** Inclusive ranges, each non-empty, in ascending order with at least one point between neighbours. */
  predicate Separated(rs: seq<(nat, nat)>) {
    (forall i :: 0 <= i < |rs| ==> rs[i].0 <= rs[i].1)
    && (forall i, j :: 0 <= i < j < |rs| ==> rs[i].1 + 1 < rs[j].0)
  }

  predicate InRanges(rs: seq<(nat, nat)>, x: nat) {
    exists i :: 0 <= i < |rs| && rs[i].0 <= x <= rs[i].1
  }

  /** The maximal runs of consecutive values of a list, in the order the list visits them. */
  function Runs(v: seq<nat>): (rs: seq<(nat, nat)>)
    ensures |rs| <= |v|
    decreases |v|
  {
    if v == [] then []
    else
      var rs := Runs(v[..|v| - 1]);
      var x := v[|v| - 1];
      if rs != [] && x == rs[|rs| - 1].1 + 1 then rs[..|rs| - 1] + [(rs[|rs| - 1].0, x)]
      else rs + [(x, x)]
  }

  /** The first run starts at the first value and the last run ends at the last value. */
  lemma {:induction false} RunsEnds(v: seq<nat>)
    ensures v != [] ==> |Runs(v)| > 0 && Runs(v)[0].0 == v[0] && Runs(v)[|Runs(v)| - 1].1 == v[|v| - 1]
  {
    if v != [] {
      var p := v[..|v| - 1];
      var x := v[|v| - 1];
      var rs := Runs(p);
      RunsEnds(p);
      if p == [] {
        assert Runs(v) == [(x, x)];
      } else {
        assert p[0] == v[0] && rs[0].0 == v[0];
        if x == rs[|rs| - 1].1 + 1 {
          var r := rs[..|rs| - 1] + [(rs[|rs| - 1].0, x)];
          assert Runs(v) == r;
          assert r[0].0 == rs[0].0;
        } else {
          var r := rs + [(x, x)];
          assert Runs(v) == r;
          assert r[0] == rs[0];
        }
      }
    }
  }

  /** The runs of an increasing list are separated ranges. */
  lemma {:induction false} RunsSeparated(v: seq<nat>)
    requires Increasing(v)
    ensures Separated(Runs(v))
  {
    if v != [] {
      var p := v[..|v| - 1];
      var x := v[|v| - 1];
      assert Increasing(p);
      RunsSeparated(p);
      RunsEnds(p);
      var rs := Runs(p);
      if rs != [] {
        assert p[|p| - 1] == v[|v| - 2] < x;
        if x == rs[|rs| - 1].1 + 1 {
          SeparatedExtend(rs, x);
        } else {
          SeparatedNewRun(rs, x);
        }
      } else {
        assert Runs(v) == [(x, x)];
      }
    }
  }

  lemma SeparatedExtend(rs: seq<(nat, nat)>, x: nat)
    requires Separated(rs) && rs != [] && x == rs[|rs| - 1].1 + 1
    ensures Separated(rs[..|rs| - 1] + [(rs[|rs| - 1].0, x)])
  {
    var r := rs[..|rs| - 1] + [(rs[|rs| - 1].0, x)];
    forall i, j | 0 <= i < j < |r| ensures r[i].1 + 1 < r[j].0 {
      assert r[i] == rs[i];
      assert r[j].0 == rs[j].0;
    }
    forall i | 0 <= i < |r| ensures r[i].0 <= r[i].1 {
      if i < |rs| - 1 {
        assert r[i] == rs[i];
      }
    }
  }

  lemma SeparatedNewRun(rs: seq<(nat, nat)>, x: nat)
    requires Separated(rs) && rs != [] && x > rs[|rs| - 1].1 + 1
    ensures Separated(rs + [(x, x)])
  {
    var r := rs + [(x, x)];
    forall i, j | 0 <= i < j < |r| ensures r[i].1 + 1 < r[j].0 {
      assert r[i] == rs[i];
      if j < |rs| {
        assert r[j] == rs[j];
      } else if i < |rs| - 1 {
        assert rs[i].1 + 1 < rs[|rs| - 1].0;
      }
    }
    forall i | 0 <= i < |r| ensures r[i].0 <= r[i].1 {
      if i < |rs| {
        assert r[i] == rs[i];
      }
    }
  }

  /** The complement range just before run `j`, if there is one. */
  function GapBefore(rs: seq<(nat, nat)>, j: nat): seq<(nat, nat)>
    requires Separated(rs) && j < |rs|
  {
    if j == 0 then (if rs[0].0 == 0 then [] else [(0, rs[0].0 - 1)])
    else [(rs[j - 1].1 + 1, rs[j].0 - 1)]
  }

  /** The complement ranges before each run. */
  function GapsBefore(rs: seq<(nat, nat)>): seq<(nat, nat)>
    requires Separated(rs)
  {
    if rs == [] then [] else GapsBefore(rs[..|rs| - 1]) + GapBefore(rs, |rs| - 1)
  }

  /** The complement of the runs over `[0, maxUnicode]`; for no runs the whole space. */
  function Gaps(rs: seq<(nat, nat)>, maxUnicode: nat): seq<(nat, nat)>
    requires Separated(rs)
  {
    if rs == [] then [(0, maxUnicode)]
    else
      var last := rs[|rs| - 1].1;
      GapsBefore(rs) + (if last + 1 <= maxUnicode then [(last + 1, maxUnicode)] else [])
  }

  /** The text `char2range` stores for a list that is already sorted. */
  function RunsText(v: seq<nat>): String {
    Concat(Texts(Runs(v)))
  }

  /** The complement text `char2range` stores for a sorted list without repeats. */
  function ComplementText(v: seq<nat>, maxUnicode: nat): String
    requires Increasing(v)
  {
    if v == [] then Uniformat(0) + "-" + Uniformat(maxUnicode)
    else
      RunsSeparated(v);
      Concat(Texts(Gaps(Runs(v), maxUnicode)))
  }

  lemma InRangesAppend(a: seq<(nat, nat)>, b: seq<(nat, nat)>, y: nat)
    ensures InRanges(a + b, y) <==> InRanges(a, y) || InRanges(b, y)
  {
    if InRanges(a + b, y) {
      var i :| 0 <= i < |a + b| && (a + b)[i].0 <= y <= (a + b)[i].1;
      if i < |a| {
        assert a[i] == (a + b)[i];
      } else {
        assert b[i - |a|] == (a + b)[i];
      }
    }
    if InRanges(a, y) {
      var i :| 0 <= i < |a| && a[i].0 <= y <= a[i].1;
      assert (a + b)[i] == a[i];
    }
    if InRanges(b, y) {
      var i :| 0 <= i < |b| && b[i].0 <= y <= b[i].1;
      assert (a + b)[|a| + i] == b[i];
    }
  }

  lemma InOne(r: (nat, nat), y: nat)
    ensures InRanges([r], y) <==> r.0 <= y <= r.1
  {
    if r.0 <= y <= r.1 {
      assert [r][0] == r;
    }
  }

  /** Every point of separated ranges lies at or below the end of the last one. */
  lemma RangesBelowLast(rs: seq<(nat, nat)>, y: nat)
    requires Separated(rs) && rs != [] && InRanges(rs, y)
    ensures y <= rs[|rs| - 1].1
  {
    var i :| 0 <= i < |rs| && rs[i].0 <= y <= rs[i].1;
    if i < |rs| - 1 {
      assert rs[i].1 + 1 < rs[|rs| - 1].0;
    }
  }

  lemma ExtendCover(front: seq<(nat, nat)>, l: (nat, nat), x: nat, y: nat)
    requires l.0 <= l.1 && x == l.1 + 1
    ensures InRanges(front + [(l.0, x)], y) <==> InRanges(front + [l], y) || y == x
  {
    InRangesAppend(front, [(l.0, x)], y);
    InRangesAppend(front, [l], y);
    InOne((l.0, x), y);
    InOne(l, y);
  }

  lemma NewRunCover(rs: seq<(nat, nat)>, x: nat, y: nat)
    ensures InRanges(rs + [(x, x)], y) <==> InRanges(rs, y) || y == x
  {
    InRangesAppend(rs, [(x, x)], y);
    InOne((x, x), y);
  }

  /** Adding a value to a list adds exactly that value to what its runs cover. */
  lemma RunsStepAt(p: seq<nat>, x: nat, y: nat)
    requires Separated(Runs(p))
    ensures InRanges(Runs(p + [x]), y) <==> InRanges(Runs(p), y) || y == x
  {
    var v := p + [x];
    assert v[..|v| - 1] == p && v[|v| - 1] == x;
    var rs := Runs(p);
    if rs != [] && x == rs[|rs| - 1].1 + 1 {
      var front := rs[..|rs| - 1];
      var l := rs[|rs| - 1];
      assert rs == front + [l];
      assert Runs(v) == front + [(l.0, x)];
      ExtendCover(front, l, x, y);
    } else {
      assert Runs(v) == rs + [(x, x)];
      NewRunCover(rs, x, y);
    }
  }

  /** The runs of an increasing list cover exactly its elements. */
  lemma {:induction false} RunsCover(v: seq<nat>)
    requires Increasing(v)
    ensures forall y: nat :: InRanges(Runs(v), y) <==> y in v
  {
    if v != [] {
      var p := v[..|v| - 1];
      var x := v[|v| - 1];
      assert Increasing(p);
      RunsCover(p);
      RunsSeparated(p);
      assert v == p + [x];
      forall y: nat ensures InRanges(Runs(v), y) <==> y in v {
        RunsStepAt(p, x, y);
      }
    }
  }

  /** Each gap before the runs is a non-empty range below the last run. */
  lemma {:induction false} GapsBeforeBounds(rs: seq<(nat, nat)>)
    requires Separated(rs) && rs != []
    ensures forall i :: 0 <= i < |GapsBefore(rs)| ==> GapsBefore(rs)[i].0 <= GapsBefore(rs)[i].1 < rs[|rs| - 1].0
  {
    var front := rs[..|rs| - 1];
    var l := rs[|rs| - 1];
    if front == [] {
      assert GapsBefore(rs) == GapBefore(rs, 0);
    } else {
      GapsBeforeBounds(front);
      var f := front[|front| - 1];
      var gap := (f.1 + 1, l.0 - 1);
      assert f == rs[|rs| - 2];
      assert f.1 + 1 < l.0;
      assert GapsBefore(rs) == GapsBefore(front) + [gap];
      var g := GapsBefore(rs);
      forall i | 0 <= i < |g| ensures g[i].0 <= g[i].1 < l.0 {
        if i < |GapsBefore(front)| {
          assert g[i] == GapsBefore(front)[i];
        } else {
          assert g[i] == gap;
        }
      }
    }
  }

  /** The gaps before the runs cover exactly the points below the last run that no run covers. */
  lemma {:induction false} GapsBeforeCover(rs: seq<(nat, nat)>)
    requires Separated(rs) && rs != []
    ensures forall y: nat :: InRanges(GapsBefore(rs), y) <==> y < rs[|rs| - 1].0 && !InRanges(rs, y)
  {
    var front := rs[..|rs| - 1];
    var l := rs[|rs| - 1];
    if front == [] {
      assert rs == [l];
      assert GapsBefore(rs) == GapBefore(rs, 0);
      forall y: nat ensures InRanges(GapsBefore(rs), y) <==> y < l.0 && !InRanges(rs, y) {
        InOne(l, y);
        if l.0 != 0 {
          InOne((0, l.0 - 1), y);
        }
      }
    } else {
      GapsBeforeCover(front);
      forall y: nat ensures InRanges(GapsBefore(rs), y) <==> y < l.0 && !InRanges(rs, y) {
        GapsBeforeCoverAt(rs, y);
      }
    }
  }

  /** One point, for at least two runs, given the cover of the runs before the last. */
  lemma GapsBeforeCoverAt(rs: seq<(nat, nat)>, y: nat)
    requires Separated(rs) && |rs| >= 2
    requires var front := rs[..|rs| - 1];
      InRanges(GapsBefore(front), y) <==> y < front[|front| - 1].0 && !InRanges(front, y)
    ensures InRanges(GapsBefore(rs), y) <==> y < rs[|rs| - 1].0 && !InRanges(rs, y)
  {
    var front := rs[..|rs| - 1];
    var l := rs[|rs| - 1];
    var f := front[|front| - 1];
    var gap := (f.1 + 1, l.0 - 1);
    assert rs == front + [l];
    assert f == rs[|rs| - 2];
    assert GapsBefore(rs) == GapsBefore(front) + [gap];
    InRangesAppend(GapsBefore(front), [gap], y);
    InRangesAppend(front, [l], y);
    InOne(gap, y);
    InOne(l, y);
    if InRanges(front, y) {
      RangesBelowLast(front, y);
    }
    if f.0 <= y <= f.1 {
      assert InRanges(front, y);
    }
  }

  /** The complement ranges cover exactly the points of `[0, maxUnicode]` that no run covers. */
  lemma GapsCover(rs: seq<(nat, nat)>, maxUnicode: nat)
    requires Separated(rs) && (rs != [] ==> rs[|rs| - 1].1 <= maxUnicode)
    ensures forall y: nat :: InRanges(Gaps(rs, maxUnicode), y) <==> y <= maxUnicode && !InRanges(rs, y)
    ensures forall i :: 0 <= i < |Gaps(rs, maxUnicode)| ==> Gaps(rs, maxUnicode)[i].0 <= Gaps(rs, maxUnicode)[i].1 <= maxUnicode
  {
    var g := Gaps(rs, maxUnicode);
    if rs == [] {
      forall y: nat ensures InRanges(g, y) <==> y <= maxUnicode && !InRanges(rs, y) {
        InOne((0, maxUnicode), y);
      }
    } else {
      var l := rs[|rs| - 1];
      var tail: seq<(nat, nat)> := if l.1 + 1 <= maxUnicode then [(l.1 + 1, maxUnicode)] else [];
      GapsBeforeCover(rs);
      GapsBeforeBounds(rs);
      assert g == GapsBefore(rs) + tail;
      forall y: nat ensures InRanges(g, y) <==> y <= maxUnicode && !InRanges(rs, y) {
        InRangesAppend(GapsBefore(rs), tail, y);
        if tail != [] {
          InOne((l.1 + 1, maxUnicode), y);
        }
        if InRanges(rs, y) {
          RangesBelowLast(rs, y);
        }
        if l.0 <= y <= l.1 {
          assert InRanges(rs, y);
        }
      }
      forall i | 0 <= i < |g| ensures g[i].0 <= g[i].1 <= maxUnicode {
        if i < |GapsBefore(rs)| {
          assert g[i] == GapsBefore(rs)[i];
        }
      }
    }
  }

  /**
   * For an increasing list whose values lie in `[0, maxUnicode]`, the runs
   * cover exactly its values and the complement ranges exactly the rest of
   * `[0, maxUnicode]`: together they partition the code space.
   */
  lemma RunsPartition(v: seq<nat>, maxUnicode: nat)
    requires Increasing(v) && forall i :: 0 <= i < |v| ==> v[i] <= maxUnicode
    ensures Separated(Runs(v))
    ensures forall y: nat :: InRanges(Runs(v), y) <==> y in v
    ensures forall y: nat :: InRanges(Gaps(Runs(v), maxUnicode), y) <==> y <= maxUnicode && y !in v
    ensures forall y: nat :: InRanges(Runs(v), y) || InRanges(Gaps(Runs(v), maxUnicode), y) <==> y <= maxUnicode
    ensures forall y: nat :: !(InRanges(Runs(v), y) && InRanges(Gaps(Runs(v), maxUnicode), y))
  {
    RunsSeparated(v);
    RunsCover(v);
    var rs := Runs(v);
    if rs != [] {
      assert InRanges(rs, rs[|rs| - 1].1);
    }
    GapsCover(rs, maxUnicode);
  }

  /** An empty list has no runs and its complement is the one range `[0, maxUnicode]`. */
  lemma EmptyComplement(maxUnicode: nat)
    requires 0 < maxUnicode <= MaxCodePoint
    ensures Runs([]) == [] && RunsText([]) == []
    ensures ComplementText([], maxUnicode) == Concat(Texts([(0, maxUnicode)]))
    ensures ClassRanges(Unescape(ComplementText([], maxUnicode))) == [(0, maxUnicode)]
  {
    var r: (nat, nat) := (0, maxUnicode);
    assert RangeText(r) == Uniformat(0) + "-" + Uniformat(maxUnicode);
    assert Texts([r]) == [RangeText(r)];
    assert Concat(Texts([r])) == RangeText(r) + Concat([]);
    RangesRoundTrip([r]);
  }

  /** Reading back the stored run text gives the runs. */
  lemma RunsRoundTrip(v: seq<nat>)
    requires Increasing(v) && forall i :: 0 <= i < |v| ==> v[i] <= MaxCodePoint
    ensures ClassRanges(Unescape(RunsText(v))) == Runs(v)
  {
    var rs := Runs(v);
    RunsSeparated(v);
    RunsCover(v);
    forall i | 0 <= i < |rs| ensures rs[i].0 <= MaxCodePoint && rs[i].1 <= MaxCodePoint {
      assert rs[i].0 <= rs[i].1;
      assert InRanges(rs, rs[i].0) && InRanges(rs, rs[i].1);
    }
    RangesRoundTrip(rs);
  }

  /** Reading back the stored complement text gives the complement ranges. */
  lemma ComplementRoundTrip(v: seq<nat>, maxUnicode: nat)
    requires Increasing(v) && forall i :: 0 <= i < |v| ==> v[i] <= maxUnicode
    requires 0 < maxUnicode <= MaxCodePoint
    ensures Separated(Runs(v))
    ensures ClassRanges(Unescape(ComplementText(v, maxUnicode))) == Gaps(Runs(v), maxUnicode)
  {
    RunsSeparated(v);
    if v == [] {
      EmptyComplement(maxUnicode);
    } else {
      RunsCover(v);
      var rs := Runs(v);
      assert InRanges(rs, rs[|rs| - 1].1);
      GapsCover(rs, maxUnicode);
      RangesRoundTrip(Gaps(rs, maxUnicode));
    }
  }

  // ---------------------------------------------------------------------
  // The loop of `char2range` over one code point list
  // ---------------------------------------------------------------------

  /** `ifirst` before the first run: 0, unless the list starts at 0. */
  function InitialGapStart(v: seq<nat>): Option<nat> {
    if |v| > 0 && v[0] != 0 then Some(0) else None
  }

  /** `Runs` of a list with one more value: the last run extended, or a new run. */
  lemma RunsSnoc(v: seq<nat>, k: nat)
    requires k < |v|
    ensures v[..k + 1] == v[..k] + [v[k]]
    ensures var rs, x := Runs(v[..k]), v[k];
      Runs(v[..k + 1]) == if rs != [] && x == rs[|rs| - 1].1 + 1 then rs[..|rs| - 1] + [(rs[|rs| - 1].0, x)] else rs + [(x, x)]
  {
    var q := v[..k + 1];
    assert q[..|q| - 1] == v[..k];
  }

  /** The runs after one more value, in terms of the closed runs and the open run `(a, b)`. */
  lemma RunsAdvance(v: seq<nat>, k: nat, closed: seq<(nat, nat)>, a: nat, b: nat)
    requires 0 < k < |v| && Runs(v[..k]) == closed + [(a, b)]
    ensures v[k] == b + 1 ==> Runs(v[..k + 1]) == closed + [(a, v[k])]
    ensures v[k] != b + 1 ==> Runs(v[..k + 1]) == closed + [(a, b)] + [(v[k], v[k])]
  {
    RunsSnoc(v, k);
    var rs := closed + [(a, b)];
    assert rs[..|rs| - 1] == closed;
  }

  /** The runs after the first value. */
  lemma RunsFirst(v: seq<nat>)
    requires 0 < |v|
    ensures Runs(v[..1]) == [] + [(v[0], v[0])]
  {
    RunsSnoc(v, 0);
    assert v[..0] == [];
  }

  /**
   * The loop's variables, with the texts replaced by the ranges they are
   * the texts of: `closed` are the runs already written to `v2`, `first`
   * and `last` delimit the open run, `ifirst` is where the gap before the
   * open run starts, and `gaps` are the ranges already written to `iv2`.
   */
  datatype ScanState = ScanState(closed: seq<(nat, nat)>, first: Option<nat>, last: Option<nat>,
                                 ifirst: Option<nat>, gaps: seq<(nat, nat)>)

  /**
   * A state with an open run: `ifirst` follows the last closed run (or is
   * the initial gap start) and, when inverting, the closed runs are
   * separated, the open run follows them and `gaps` are the gaps before
   * the closed runs.
   */
  ghost predicate Scanned(v: seq<nat>, invert: bool, s: ScanState) {
    |v| > 0 && s.first.Some? && s.last.Some? && (s.closed == [] ==> s.first.value == v[0])
    && s.ifirst == (if s.closed == [] then InitialGapStart(v) else Some(s.closed[|s.closed| - 1].1 + 1))
    && (invert ==>
          Separated(s.closed) && Follows(s.closed, (s.first.value, s.last.value))
          && (s.ifirst.Some? ==> s.ifirst.value < s.first.value)
          && s.gaps == GapsBefore(s.closed))
  }

  /** A non-empty range that starts at least two past the last of `rs`. */
  predicate Follows(rs: seq<(nat, nat)>, r: (nat, nat)) {
    r.0 <= r.1 && (rs != [] ==> rs[|rs| - 1].1 + 1 < r.0)
  }

  /** Separated ranges stay separated when a following range is appended. */
  lemma SeparatedSnoc(rs: seq<(nat, nat)>, r: (nat, nat))
    requires Separated(rs) && Follows(rs, r)
    ensures Separated(rs + [r])
  {
    var q := rs + [r];
    forall i, j | 0 <= i < j < |q| ensures q[i].1 + 1 < q[j].0 {
      if j == |rs| && i < |rs| - 1 {
        assert rs[i].1 + 1 < rs[|rs| - 1].0;
      }
    }
  }

  /** The gap from `ifirst` to one below `a`, when `ifirst` is set. */
  function GapFrom(ifirst: Option<nat>, a: nat): seq<(nat, nat)> {
    if ifirst.Some? && ifirst.value < a then [(ifirst.value, a - 1)] else []
  }

  /** The tail range after `b`, up to `sys.maxunicode`. */
  function TailFrom(maxrange: nat, b: nat): seq<(nat, nat)> {
    if b + 1 <= maxrange then [(b + 1, maxrange)] else []
  }

  /** The text of the optional gap range. */
  lemma GapTexts(ifirst: Option<nat>, a: nat)
    ensures Texts(GapFrom(ifirst, a)) == if ifirst.Some? && ifirst.value < a then [RangeText((ifirst.value, a - 1))] else []
  {
  }

  /** The text of the optional tail range. */
  lemma TailTexts(maxrange: nat, b: nat)
    ensures Texts(TailFrom(maxrange, b)) == if b + 1 <= maxrange then [RangeText((b + 1, maxrange))] else []
  {
  }

  /** The gap the loop writes before the open run is the one `GapBefore` puts there. */
  lemma GapBeforeOpen(v: seq<nat>, closed: seq<(nat, nat)>, a: nat, b: nat, ifirst: Option<nat>)
    requires |v| > 0 && (closed == [] ==> a == v[0])
    requires ifirst == (if closed == [] then InitialGapStart(v) else Some(closed[|closed| - 1].1 + 1))
    requires ifirst.Some? ==> ifirst.value < a
    requires Separated(closed + [(a, b)])
    ensures GapBefore(closed + [(a, b)], |closed|) == GapFrom(ifirst, a)
  {
    var rs := closed + [(a, b)];
    if closed == [] {
      assert rs[0] == (a, b);
    } else {
      assert rs[|closed| - 1] == closed[|closed| - 1] && rs[|closed|] == (a, b);
    }
  }

  /** Appending a run appends the gap before it. */
  lemma GapsBeforeSnoc(closed: seq<(nat, nat)>, a: nat, b: nat)
    requires Separated(closed + [(a, b)]) && Separated(closed)
    ensures GapsBefore(closed + [(a, b)]) == GapsBefore(closed) + GapBefore(closed + [(a, b)], |closed|)
  {
    assert (closed + [(a, b)])[..|closed|] == closed;
  }

  /** The gaps before the closed runs and the open run `(a, b)`, when the loop writes the gap before it. */
  lemma NewRunGaps(v: seq<nat>, closed: seq<(nat, nat)>, a: nat, b: nat, ifirst: Option<nat>)
    requires Separated(closed) && Follows(closed, (a, b))
    requires |v| > 0 && (closed == [] ==> a == v[0])
    requires ifirst == (if closed == [] then InitialGapStart(v) else Some(closed[|closed| - 1].1 + 1))
    requires ifirst.Some? ==> ifirst.value < a
    ensures Separated(closed + [(a, b)])
    ensures GapsBefore(closed + [(a, b)]) == GapsBefore(closed) + GapFrom(ifirst, a)
  {
    SeparatedSnoc(closed, (a, b));
    GapsBeforeSnoc(closed, a, b);
    GapBeforeOpen(v, closed, a, b, ifirst);
  }

  /** The complement of non-empty runs: the gaps before them and the tail after the last. */
  lemma GapsEnd(maxrange: nat, closed: seq<(nat, nat)>, a: nat, b: nat)
    requires Separated(closed + [(a, b)])
    ensures Gaps(closed + [(a, b)], maxrange) == GapsBefore(closed + [(a, b)]) + TailFrom(maxrange, b)
  {
    var rs := closed + [(a, b)];
    assert rs[|rs| - 1] == (a, b);
  }

  /** The complement of the runs `closed + [(a, b)]`: the gaps before the closed runs, the gap before the open run, the tail. */
  lemma GapsSnoc(maxrange: nat, closed: seq<(nat, nat)>, a: nat, b: nat)
    requires Separated(closed + [(a, b)]) && Separated(closed)
    ensures Gaps(closed + [(a, b)], maxrange)
            == GapsBefore(closed) + GapBefore(closed + [(a, b)], |closed|) + TailFrom(maxrange, b)
  {
    GapsEnd(maxrange, closed, a, b);
    GapsBeforeSnoc(closed, a, b);
  }

  /** The complement the loop writes: the gaps before the closed runs, the gap before the open run, the tail. */
  lemma ScanGaps(maxrange: nat, v: seq<nat>, closed: seq<(nat, nat)>, a: nat, b: nat, ifirst: Option<nat>)
    requires Separated(closed) && Follows(closed, (a, b))
    requires |v| > 0 && (closed == [] ==> a == v[0])
    requires ifirst == (if closed == [] then InitialGapStart(v) else Some(closed[|closed| - 1].1 + 1))
    requires ifirst.Some? ==> ifirst.value < a
    ensures Separated(closed + [(a, b)])
    ensures Gaps(closed + [(a, b)], maxrange) == GapsBefore(closed) + GapFrom(ifirst, a) + TailFrom(maxrange, b)
  {
    SeparatedSnoc(closed, (a, b));
    GapsSnoc(maxrange, closed, a, b);
    GapBeforeOpen(v, closed, a, b, ifirst);
  }

  /** The complement text of a non-empty increasing list, given its runs. */
  lemma ComplementOfRuns(maxrange: nat, v: seq<nat>, rs: seq<(nat, nat)>)
    requires Increasing(v) && v != [] && Runs(v) == rs
    ensures Separated(rs) && ComplementText(v, maxrange) == Concat(Texts(Gaps(rs, maxrange)))
  {
    RunsSeparated(v);
  }

  /** The loop invariant after the first `k` values of `v`. */
  ghost predicate ScanInv(v: seq<nat>, invert: bool, k: nat, s: ScanState) {
    k <= |v|
    && (k == 0 ==> s.first.None? && s.ifirst == InitialGapStart(v) && s.closed == [] && s.gaps == [])
    && (k > 0 ==> Scanned(v, invert, s) && Runs(v[..k]) == s.closed + [(s.first.value, s.last.value)]
                  && s.last.value == v[k - 1])
  }

  /**
   * What one pass of the loop body does with value `x`: open the first
   * run, extend the open run, or close it (with, when inverting, the gap
   * before it) and open a new one.
   */
  ghost function ScanNext(s: ScanState, invert: bool, x: nat): ScanState
    requires s.first.Some? ==> s.last.Some?
  {
    if s.first.None? then s.(first := Some(x), last := Some(x))
    else if x == s.last.value + 1 then s.(last := Some(x))
    else ScanState(s.closed + [(s.first.value, s.last.value)], Some(x), Some(x), Some(s.last.value + 1),
                   if invert then s.gaps + GapFrom(s.ifirst, s.first.value) else s.gaps)
  }

  /** The loop's variables after the first `k` values of `v`. */
  ghost function ScanAfter(v: seq<nat>, invert: bool, k: nat): (s: ScanState)
    requires k <= |v| && (invert ==> Increasing(v))
    ensures s.first.Some? == s.last.Some? == (k > 0)
    ensures k > 0 ==> s.last.value == v[k - 1]
    ensures k == 0 ==> s.ifirst == InitialGapStart(v)
    ensures invert && s.first.Some? && s.ifirst.Some? ==> s.ifirst.value < s.first.value
    decreases k
  {
    if k == 0 then ScanState([], None, None, InitialGapStart(v), [])
    else ScanNext(ScanAfter(v, invert, k - 1), invert, v[k - 1])
  }

  /** One more value of `v`: one more pass of the loop body. */
  lemma ScanAfterNext(v: seq<nat>, invert: bool, k: nat)
    requires k < |v| && (invert ==> Increasing(v))
    ensures ScanAfter(v, invert, k + 1) == ScanNext(ScanAfter(v, invert, k), invert, v[k])
  {
  }

  /** The first value opens the first run. */
  lemma StepStart(v: seq<nat>, invert: bool, s: ScanState, t: ScanState)
    requires 0 < |v| && ScanInv(v, invert, 0, s)
    requires t == ScanNext(s, invert, v[0])
    ensures ScanInv(v, invert, 1, t)
  {
    RunsFirst(v);
  }

  /** A value one past the open run extends it. */
  lemma StepExtend(v: seq<nat>, invert: bool, k: nat, s: ScanState, t: ScanState)
    requires 0 < k < |v| && ScanInv(v, invert, k, s) && v[k] == s.last.value + 1
    requires t == ScanNext(s, invert, v[k])
    ensures ScanInv(v, invert, k + 1, t)
  {
    RunsAdvance(v, k, s.closed, s.first.value, s.last.value);
  }

  /** Any other value closes the open run, writes the gap before it when inverting, and opens a new run. */
  lemma StepNewRun(v: seq<nat>, invert: bool, k: nat, s: ScanState, t: ScanState)
    requires 0 < k < |v| && (invert ==> Increasing(v)) && ScanInv(v, invert, k, s) && v[k] != s.last.value + 1
    requires t == ScanNext(s, invert, v[k])
    ensures ScanInv(v, invert, k + 1, t)
  {
    RunsAdvance(v, k, s.closed, s.first.value, s.last.value);
    if invert {
      assert v[k - 1] < v[k];
      NewRunGaps(v, s.closed, s.first.value, s.last.value, s.ifirst);
    }
  }

  /** One pass of the loop body keeps `ScanInv`. */
  lemma StateStep(v: seq<nat>, invert: bool, k: nat, s: ScanState, t: ScanState)
    requires k < |v| && (invert ==> Increasing(v)) && ScanInv(v, invert, k, s)
    requires t == ScanNext(s, invert, v[k])
    ensures ScanInv(v, invert, k + 1, t)
  {
    if s.first.None? {
      StepStart(v, invert, s, t);
    } else if v[k] == s.last.value + 1 {
      StepExtend(v, invert, k, s, t);
    } else {
      StepNewRun(v, invert, k, s, t);
    }
  }

  /** The loop's variables after `k` values keep `ScanInv`. */
  lemma {:induction false} ScanAfterInv(v: seq<nat>, invert: bool, k: nat)
    requires k <= |v| && (invert ==> Increasing(v))
    ensures ScanInv(v, invert, k, ScanAfter(v, invert, k))
  {
    if k > 0 {
      ScanAfterInv(v, invert, k - 1);
      StateStep(v, invert, k - 1, ScanAfter(v, invert, k - 1), ScanAfter(v, invert, k));
    }
  }

  /**
   * After the last value: closing the open run writes all of `Runs(v)`,
   * and, when inverting, the gaps, the gap before the open run and the
   * tail up to `maxrange` are all of `Gaps(Runs(v), maxrange)`.
   */
  lemma StepFinish(maxrange: nat, v: seq<nat>, invert: bool, s: ScanState)
    requires 0 < |v| && (invert ==> Increasing(v)) && ScanInv(v, invert, |v|, s)
    ensures Concat(Texts(s.closed + [(s.first.value, s.last.value)])) == RunsText(v)
    ensures invert ==> Concat(Texts(s.gaps + GapFrom(s.ifirst, s.first.value) + TailFrom(maxrange, s.last.value)))
                       == ComplementText(v, maxrange)
  {
    assert v[..|v|] == v;
    if invert {
      ScanGaps(maxrange, v, s.closed, s.first.value, s.last.value, s.ifirst);
      ComplementOfRuns(maxrange, v, s.closed + [(s.first.value, s.last.value)]);
    }
  }

  /** For an empty list: no runs, and the complement is the whole code space. */
  lemma EmptyListTexts(maxrange: nat)
    ensures Concat(Texts([])) == RunsText([])
    ensures Concat([Uniformat(0) + "-" + Uniformat(maxrange)]) == ComplementText([], maxrange)
  {
    var t := Uniformat(0) + "-" + Uniformat(maxrange);
    assert Concat([t]) == t + Concat([]);
  }

  /** One pass of the loop body over value `i`. */
  method ScanStep(invert: bool, ghost s: ScanState, i: nat, first: Option<nat>, last: Option<nat>, ifirst: Option<nat>,
                  v2: seq<String>, iv2: seq<String>)
      returns (first': Option<nat>, last': Option<nat>, ifirst': Option<nat>, v2': seq<String>, iv2': seq<String>,
               ghost s': ScanState)
    requires s.first == first && s.last == last && s.ifirst == ifirst && v2 == Texts(s.closed) && iv2 == Texts(s.gaps)
    requires s.first.Some? ==> s.last.Some?
    requires invert && s.first.Some? && s.ifirst.Some? ==> s.ifirst.value < s.first.value
    ensures s' == ScanNext(s, invert, i)
    ensures s'.first == first' && s'.last == last' && s'.ifirst == ifirst' && v2' == Texts(s'.closed) && iv2' == Texts(s'.gaps)
  {
    s' := ScanNext(s, invert, i);
    first', last', ifirst', v2', iv2' := first, last, ifirst, v2, iv2;
    if first.None? {
      first', last' := Some(i), Some(i);
    } else if i == last.value + 1 {
      last' := Some(i);
    } else {
      v2' := v2 + [RangeText((first.value, last.value))];
      TextsSnoc(s.closed, (first.value, last.value));
      iv2' := CloseGap(invert, s.gaps, ifirst, first.value, iv2);
      ifirst' := Some(last.value + 1);
      first', last' := Some(i), Some(i);
    }
  }

  /** The walk over the sorted list, up to and including its last value. */
  method ScanRuns(v: seq<nat>, invert: bool)
      returns (first: Option<nat>, last: Option<nat>, ifirst: Option<nat>, v2: seq<String>, iv2: seq<String>,
               ghost s: ScanState)
    requires invert ==> Increasing(v)
    ensures s == ScanAfter(v, invert, |v|)
    ensures s.first == first && s.last == last && s.ifirst == ifirst && v2 == Texts(s.closed) && iv2 == Texts(s.gaps)
  {
    first, last, ifirst := None, None, None;
    v2, iv2 := [], [];
    if |v| > 0 && v[0] != 0 {
      ifirst := Some(0);
    }
    s := ScanState([], None, None, ifirst, []);
    var k := 0;
    while k < |v|
      invariant k <= |v| && s == ScanAfter(v, invert, k)
      invariant s.first == first && s.last == last && s.ifirst == ifirst && v2 == Texts(s.closed) && iv2 == Texts(s.gaps)
    {
      ScanAfterNext(v, invert, k);
      first, last, ifirst, v2, iv2, s := ScanStep(invert, s, v[k], first, last, ifirst, v2, iv2);
      k := k + 1;
    }
  }

  /** When a run `a..` closes and the list is inverted: write the gap before it. */
  method CloseGap(invert: bool, ghost gaps: seq<(nat, nat)>, ifirst: Option<nat>, a: nat, iv2: seq<String>)
      returns (iv2': seq<String>)
    requires iv2 == Texts(gaps)
    requires invert && ifirst.Some? ==> ifirst.value < a
    ensures invert ==> iv2' == Texts(gaps + GapFrom(ifirst, a))
    ensures !invert ==> iv2' == iv2
  {
    iv2' := iv2;
    if invert && ifirst.Some? {
      var ilast := a - 1;
      iv2' := iv2' + [RangeText((ifirst.value, ilast))];
    }
    if invert {
      GapTexts(ifirst, a);
      TextsAppend(gaps, GapFrom(ifirst, a));
    }
  }

  /** After the loop, when inverting: the tail past the open run `..b`, up to `maxrange`. */
  method CloseTail(maxrange: nat, invert: bool, ghost gaps: seq<(nat, nat)>, b: nat, iv2: seq<String>)
      returns (iv2': seq<String>)
    requires iv2 == Texts(gaps)
    ensures invert ==> iv2' == Texts(gaps + TailFrom(maxrange, b))
  {
    iv2' := iv2;
    var ifirst := Some(b + 1);
    if invert && ifirst.value <= maxrange {
      iv2' := iv2' + [RangeText((ifirst.value, maxrange))];
    }
    if invert {
      TailTexts(maxrange, b);
      TextsAppend(gaps, TailFrom(maxrange, b));
    }
  }

  /** After the loop: close the open run and, when inverting, write the last gap and the tail. */
  method ScanClose(maxrange: nat, invert: bool, ghost s: ScanState, first: Option<nat>, last: Option<nat>,
                   ifirst: Option<nat>, v2: seq<String>, iv2: seq<String>)
      returns (v2': seq<String>, iv2': seq<String>)
    requires s.first == first && s.last == last && s.ifirst == ifirst && v2 == Texts(s.closed) && iv2 == Texts(s.gaps)
    requires first.Some? && last.Some?
    requires invert && ifirst.Some? ==> ifirst.value < first.value
    ensures v2' == Texts(s.closed + [(s.first.value, s.last.value)])
    ensures invert ==> iv2' == Texts(s.gaps + GapFrom(s.ifirst, s.first.value) + TailFrom(maxrange, s.last.value))
  {
    v2' := v2 + [RangeText((first.value, last.value))];
    TextsSnoc(s.closed, (first.value, last.value));
    iv2' := CloseGap(invert, s.gaps, ifirst, first.value, iv2);
    if !invert {
      return;
    }
    iv2' := CloseTail(maxrange, invert, s.gaps + GapFrom(ifirst, first.value), last.value, iv2');
  }

  /**
   * The list branch of `char2range`: sort the list, then walk it once,
   * closing a run whenever a value does not extend the open one, and,
   * when inverting, writing the gap before each run and the tail up to
   * `maxrange` (the interpreter's `sys.maxunicode`, 0x10FFFF on a wide
   * build). The run text is `RunsText` of the sorted list; the complement
   * text is `ComplementText`.
   */
  method ListRanges(v1: seq<nat>, invert: bool, maxrange: nat) returns (text: String, itext: String)
    requires invert ==> Distinct(v1)
    ensures text == RunsText(SortCodes(v1))
    ensures invert ==> Increasing(SortCodes(v1)) && itext == ComplementText(SortCodes(v1), maxrange)
  {
    var v := SortCodes(v1);
    SortCodesOrdered(v1);
    var first: Option<nat>, last: Option<nat>, ifirst: Option<nat>, v2: seq<String>, iv2: seq<String>;
    ghost var s: ScanState;
    first, last, ifirst, v2, iv2, s := ScanRuns(v, invert);
    if |v| == 0 {
      iv2 := [Uniformat(0) + "-" + Uniformat(maxrange)];
      EmptyListTexts(maxrange);
    } else {
      ScanAfterInv(v, invert, |v|);
      v2, iv2 := ScanClose(maxrange, invert, s, first, last, ifirst, v2, iv2);
      StepFinish(maxrange, v, invert, s);
    }
    text := Concat(v2);
    itext := Concat(iv2);
  }
}
