/**
 * The table-building steps of `unipropgen.py` around the range
 * compression: property-name normalisation (`format_name`), span
 * clamping (`create_span`), the fill-ins for code points no entry lists
 * (`not_explicitly_defined`, and the `na` and `y` entries of the age and
 * quick-check tables), the POSIX class formulas (`gen_uposix`), and the
 * dict-level walk of `char2range` that replaces every code point list of
 * a possibly nested table by its range text and, when inverting, writes
 * the complement text under the partner key.
 *
 * Tables are values here: an operation that updates a dict in place
 * returns the dict's new contents.
 */
module UniProps {
  import opened Wrappers
  import opened JsString
  import opened UniRanges

  /** The Python exceptions these steps can raise. */
  datatype PyError = KeyError | IndexError | AttributeError

  // ---------------------------------------------------------------------
  // format_name
  // ---------------------------------------------------------------------

  /** `c.isspace()`: the characters `str.strip()` removes. */
  predicate IsPySpace(c: char) {
    '\t' <= c <= '\r' || '\U{1C}' <= c <= ' ' || c == '\U{85}' || c == '\U{A0}' || c == '\U{1680}'
    || '\U{2000}' <= c <= '\U{200A}' || c == '\U{2028}' || c == '\U{2029}' || c == '\U{202F}'
    || c == '\U{205F}' || c == '\U{3000}'
  }

  function StripStart(s: String): (r: String)
    ensures r != [] ==> !IsPySpace(r[0])
  {
    if s != [] && IsPySpace(s[0]) then StripStart(s[1..]) else s
  }

  function StripEnd(s: String): (r: String)
    ensures r != [] ==> !IsPySpace(r[|r| - 1])
  {
    if s != [] && IsPySpace(s[|s| - 1]) then StripEnd(s[..|s| - 1]) else s
  }

  /** `s.strip()`: leading and trailing white space removed. */
  function Strip(s: String): String {
    StripEnd(StripStart(s))
  }

  /** `s.replace(c, '')` for a one-character pattern. */
  function Without(s: String, c: char): String {
    if s == [] then [] else (if s[0] == c then [] else [s[0]]) + Without(s[1..], c)
  }

  /** `format_name`: strip, lower-case, then drop every space, `-` and `_`. */
  function FormatName(text: String): (r: String)
    ensures forall x :: x in r ==> x != ' ' && x != '-' && x != '_' && !('A' <= x <= 'Z')
  {
    var l := ToLower(Strip(text));
    LowerMembers(Strip(text));
    WithoutMembers(l, ' ');
    WithoutMembers(Without(l, ' '), '-');
    WithoutMembers(Without(Without(l, ' '), '-'), '_');
    Without(Without(Without(l, ' '), '-'), '_')
  }

  lemma {:induction false} WithoutMembers(s: String, c: char)
    ensures forall x :: x in Without(s, c) <==> x in s && x != c
  {
    if s != [] {
      WithoutMembers(s[1..], c);
      assert s == [s[0]] + s[1..];
    }
  }

  lemma {:induction false} WithoutAbsent(s: String, c: char)
    requires c !in s
    ensures Without(s, c) == s
  {
    if s != [] {
      WithoutAbsent(s[1..], c);
      assert s == [s[0]] + s[1..];
    }
  }

  lemma {:induction false} StripStartMembers(s: String)
    ensures forall x :: x in StripStart(s) ==> x in s
  {
    if s != [] && IsPySpace(s[0]) {
      StripStartMembers(s[1..]);
    }
  }

  lemma {:induction false} StripEndMembers(s: String)
    ensures forall x :: x in StripEnd(s) ==> x in s
  {
    if s != [] && IsPySpace(s[|s| - 1]) {
      StripEndMembers(s[..|s| - 1]);
    }
  }

  lemma StripMembers(s: String)
    ensures forall x :: x in Strip(s) ==> x in s
  {
    StripStartMembers(s);
    StripEndMembers(StripStart(s));
  }

  lemma {:induction false} StripNoSpace(s: String)
    requires forall i :: 0 <= i < |s| ==> !IsPySpace(s[i])
    ensures Strip(s) == s
  {
  }

  lemma {:induction false} ToLowerFixed(s: String)
    requires forall i :: 0 <= i < |s| ==> LowerChar(s[i]) == s[i]
    ensures ToLower(s) == s
  {
  }

  lemma LowerMembers(s: String)
    ensures forall x :: x in ToLower(s) ==> exists c :: c in s && x == LowerChar(c)
  {
    var r := ToLower(s);
    forall x | x in r ensures exists c :: c in s && x == LowerChar(c) {
      var i :| 0 <= i < |r| && r[i] == x;
      assert s[i] in s;
    }
  }

  /**
   * Formatting a formatted name changes nothing, provided the only white
   * space in the name is the plain space.
   */
  lemma FormatNameIdempotent(text: String)
    requires forall i :: 0 <= i < |text| ==> IsPySpace(text[i]) ==> text[i] == ' '
    ensures FormatName(FormatName(text)) == FormatName(text)
  {
    var r := FormatName(text);
    var l := ToLower(Strip(text));
    StripMembers(text);
    LowerMembers(Strip(text));
    WithoutMembers(l, ' ');
    WithoutMembers(Without(l, ' '), '-');
    WithoutMembers(Without(Without(l, ' '), '-'), '_');
    forall i | 0 <= i < |r| ensures !IsPySpace(r[i]) && LowerChar(r[i]) == r[i] {
      assert r[i] in r;
    }
    StripNoSpace(r);
    ToLowerFixed(r);
    assert ' ' !in r && '-' !in r && '_' !in r;
    WithoutAbsent(r, ' ');
    WithoutAbsent(r, '-');
    WithoutAbsent(r, '_');
  }

  /**
   * Not idempotent in general: a tab that only a dropped `-` kept inside
   * the name is stripped by a second pass (`"-\tx"` gives `"\tx"`, which
   * gives `"x"`).
   */
  lemma FormatNameNotIdempotent(x: char)
    requires 'a' <= x <= 'z'
    ensures FormatName(['-', '\t', x]) == ['\t', x] && FormatName(['\t', x]) == [x]
  {
    LetterKept(x);
    FormatDashTab(x);
    FormatTab(x);
  }

  lemma FormatDashTab(x: char)
    requires !IsPySpace(x) && LowerChar(x) == x && x != ' ' && x != '-' && x != '_'
    ensures FormatName(['-', '\t', x]) == ['\t', x]
  {
    var t := ['-', '\t', x];
    StripNoSpaceEnds(t);
    NonLetterKept('-');
    NonLetterKept('\t');
    LowerKept3('-', '\t', x);
    WithoutAbsent(t, ' ');
    WithoutDrops('-', ['\t', x]);
    WithoutAbsent(['\t', x], '-');
    WithoutAbsent(['\t', x], '_');
  }

  lemma FormatTab(x: char)
    requires !IsPySpace(x) && LowerChar(x) == x && x != ' ' && x != '-' && x != '_'
    ensures FormatName(['\t', x]) == [x]
  {
    var u := ['\t', x];
    assert Strip(u) == [x] by {
      StripSpaceFirst('\t', [x]);
      assert u == ['\t'] + [x];
      StripNoSpaceEnds([x]);
    }
    assert ToLower([x]) == [x] by {
      ToLowerFixed([x]);
    }
    assert Without(Without(Without([x], ' '), '-'), '_') == [x] by {
      WithoutAbsent([x], ' ');
      WithoutAbsent([x], '-');
      WithoutAbsent([x], '_');
    }
  }

  lemma StripSpaceFirst(c: char, s: String)
    requires IsPySpace(c)
    ensures StripStart([c] + s) == StripStart(s)
  {
    assert ([c] + s)[1..] == s;
  }

  lemma LowerKept3(a: char, b: char, c: char)
    requires LowerChar(a) == a && LowerChar(b) == b && LowerChar(c) == c
    ensures ToLower([a, b, c]) == [a, b, c]
  {
    ToLowerFixed([a, b, c]);
  }

  lemma WithoutDrops(c: char, s: String)
    requires c !in s
    ensures Without([c] + s, c) == s
  {
    assert ([c] + s)[1..] == s;
    WithoutAbsent(s, c);
  }

  lemma LetterKept(x: char)
    requires 'a' <= x <= 'z'
    ensures !IsPySpace(x) && LowerChar(x) == x
  {
  }

  lemma NonLetterKept(c: char)
    requires !('A' <= c <= 'Z')
    ensures LowerChar(c) == c
  {
  }

  lemma StripNoSpaceEnds(s: String)
    requires s != [] && !IsPySpace(s[0]) && !IsPySpace(s[|s| - 1])
    ensures Strip(s) == s
  {
  }

  // ---------------------------------------------------------------------
  // create_span
  // ---------------------------------------------------------------------

  /** `MAXVALIDASCII`. */
  const MaxValidAscii: nat := 0x7F

  /** The argument list after the call, and the span (`None` for a span wholly above ASCII in bytes mode). */
  datatype Span = Span(arg: seq<nat>, values: Option<seq<nat>>)

  /** `[x for x in range(lo, hi + 1)]`. */
  function IntRange(lo: nat, hi: nat): seq<nat> {
    if hi < lo then [] else seq(hi - lo + 1, i requires 0 <= i => lo + i)
  }

  lemma IntRangeMembers(lo: nat, hi: nat)
    ensures forall x :: x in IntRange(lo, hi) <==> lo <= x <= hi
    ensures Increasing(IntRange(lo, hi))
  {
    var r := IntRange(lo, hi);
    forall x | lo <= x <= hi ensures x in r {
      assert r[x - lo] == x;
    }
  }

  /**
   * `create_span(unirange, is_bytes)`: a one-element list is widened to
   * `[x, x]`; in bytes mode a span starting above 0x7F gives `None` and
   * an end above 0x7F is clamped to 0x7F. An empty list raises
   * IndexError.
   */
  function CreateSpan(unirange: seq<nat>, isBytes: bool): (r: Result<Span, PyError>)
    ensures r.Err? <==> unirange == []
    ensures r.Ok? ==> |r.value.arg| == if |unirange| < 2 then 2 else |unirange|
  {
    if unirange == [] then Err(IndexError)
    else
      var u := if |unirange| < 2 then unirange + [unirange[0]] else unirange;
      if isBytes && u[0] > MaxValidAscii then Ok(Span(u, None))
      else
        var u' := if isBytes && u[1] > MaxValidAscii then u[1 := MaxValidAscii] else u;
        Ok(Span(u', Some(IntRange(u'[0], u'[1]))))
  }

  /** A one-element list becomes `[x, x]`. */
  lemma CreateSpanWidens(x: nat, isBytes: bool)
    ensures CreateSpan([x], isBytes).Ok? && CreateSpan([x], isBytes).value.arg == [x, x]
  {
  }

  /**
   * The span holds exactly the integers from the start to the (clamped)
   * end, in increasing order; in bytes mode it is `None` exactly when the
   * start is above 0x7F, and never reaches above 0x7F.
   */
  lemma CreateSpanValues(unirange: seq<nat>, isBytes: bool)
    requires unirange != []
    ensures var s := CreateSpan(unirange, isBytes).value;
      var hi := if |unirange| < 2 then unirange[0] else unirange[1];
      && s.arg[0] == unirange[0]
      && (s.values.None? <==> isBytes && unirange[0] > MaxValidAscii)
      && (s.values.Some? ==> s.arg[1] == (if isBytes && hi > MaxValidAscii then MaxValidAscii else hi))
      && (s.values.Some? ==> Increasing(s.values.value)
                             && forall x :: x in s.values.value <==> s.arg[0] <= x <= s.arg[1])
  {
    var s := CreateSpan(unirange, isBytes).value;
    if s.values.Some? {
      IntRangeMembers(s.arg[0], s.arg[1]);
    }
  }

  // ---------------------------------------------------------------------
  // Sets of code points
  // ---------------------------------------------------------------------

  /** `set(l)`. */
  function Elems(l: seq<nat>): set<nat> {
    set x | x in l
  }

  /** `ALL_CHARS`, or `ALL_CHARS - ASCII_UNUSED` for the ASCII tables. */
  function AllCodes(asciiProps: bool): set<nat> {
    Elems(IntRange(0, if asciiProps then MaxValidAscii else MaxCodePoint))
  }

  /** The code points some entry of the table lists. */
  ghost function Assigned(t: map<String, seq<nat>>): set<nat> {
    set k, x | k in t && x in t[k] :: x
  }

  /** `list(s)`: the members of `s`, once each, in an order the model leaves open. */
  method ListOf(s: set<nat>) returns (l: seq<nat>)
    ensures Elems(l) == s && Distinct(l)
  {
    l := [];
    var rest := s;
    while rest != {}
      invariant rest <= s && Elems(l) == s - rest && Distinct(l)
      decreases |rest|
    {
      var x :| x in rest;
      assert x !in l;
      assert Elems(l + [x]) == Elems(l) + {x};
      l := l + [x];
      rest := rest - {x};
    }
  }

  /** `for v in t.values(): s |= set(v)`. */
  method UnionOf(t: map<String, seq<nat>>) returns (s: set<nat>)
    ensures s == Assigned(t)
  {
    s := {};
    var keys := t.Keys;
    while keys != {}
      invariant keys <= t.Keys
      invariant s == set k, x | k in t && k !in keys && x in t[k] :: x
      decreases keys
    {
      var k :| k in keys;
      s := s + Elems(t[k]);
      keys := keys - {k};
    }
  }

  // ---------------------------------------------------------------------
  // not_explicitly_defined and the `na` / `y` entries
  // ---------------------------------------------------------------------

  /**
   * `not_explicitly_defined(table, name)`: the entry `name.lower()` gets
   * every code point of `ALL_CHARS` that no entry lists, added to its own
   * members when the entry exists. No other entry changes.
   */
  method NotExplicitlyDefined(table: map<String, seq<nat>>, name: String) returns (table': map<String, seq<nat>>)
    ensures ToLower(name) in table' && table' == table[ToLower(name) := table'[ToLower(name)]]
    ensures Distinct(table'[ToLower(name)])
    ensures Elems(table'[ToLower(name)])
            == (if ToLower(name) in table then Elems(table[ToLower(name)]) else {}) + (AllCodes(false) - Assigned(table))
  {
    var key := ToLower(name);
    var s := UnionOf(table);
    var l: seq<nat>;
    if key in table {
      l := ListOf(Elems(table[key]) + (AllCodes(false) - s));
    } else {
      l := ListOf(AllCodes(false) - s);
    }
    table' := table[key := l];
  }

  /**
   * After `not_explicitly_defined` every code point of `ALL_CHARS` is
   * listed by some entry; when every entry already lay within
   * `ALL_CHARS`, the entries together list exactly `ALL_CHARS`.
   */
  lemma NotExplicitlyDefinedCovers(table: map<String, seq<nat>>, key: String, l: seq<nat>)
    requires Elems(l) == (if key in table then Elems(table[key]) else {}) + (AllCodes(false) - Assigned(table))
    ensures Assigned(table[key := l]) == Assigned(table) + AllCodes(false)
    ensures (forall k :: k in table ==> Elems(table[k]) <= AllCodes(false)) ==> Assigned(table[key := l]) == AllCodes(false)
  {
    var t' := table[key := l];
    forall x | x in Assigned(table) ensures x in Assigned(t') {
      var k :| k in table && x in table[k];
      if k == key {
        assert x in Elems(table[k]);
        assert x in Elems(l);
        assert key in t' && x in t'[key];
      } else {
        assert k in t' && x in t'[k];
      }
    }
    forall x | x in AllCodes(false) ensures x in Assigned(t') {
      if x !in Assigned(table) {
        assert x in Elems(l);
        assert key in t' && x in t'[key];
      }
    }
    forall x | x in Assigned(t') ensures x in Assigned(table) + AllCodes(false) {
      var k :| k in t' && x in t'[k];
      if k == key {
        assert x in Elems(l);
      } else {
        assert k in table && x in table[k];
      }
    }
  }

  /**
   * The fill-in of `gen_age` (entry `na`) and of each sub-table of
   * `gen_nf_quick_check` (entry `y`): the entry becomes the code points of
   * `all` that no entry, itself included, lists. No other entry changes.
   */
  method FillUnassigned(table: map<String, seq<nat>>, name: String, all: set<nat>) returns (table': map<String, seq<nat>>)
    ensures name in table' && table' == table[name := table'[name]]
    ensures Distinct(table'[name]) && Elems(table'[name]) == all - Assigned(table)
  {
    var s := UnionOf(table);
    var l := ListOf(all - s);
    table' := table[name := l];
  }

  /**
   * The filled entry holds exactly the code points of `all` that no other
   * entry lists, when it started empty or absent; then the entries
   * together cover `all`.
   */
  lemma FillUnassignedExactly(table: map<String, seq<nat>>, name: String, all: set<nat>, l: seq<nat>)
    requires name !in table || table[name] == []
    requires Elems(l) == all - Assigned(table)
    ensures forall x :: x in l <==> x in all && forall k :: k in table && k != name ==> x !in table[k]
    ensures all <= Assigned(table[name := l])
  {
    forall x ensures x in l <==> x in all && forall k :: k in table && k != name ==> x !in table[k] {
      assert x in l <==> x in Elems(l);
    }
    forall x | x in all ensures x in Assigned(table[name := l]) {
      if x !in Assigned(table) {
        assert x in Elems(l);
        assert name in table[name := l] && x in table[name := l][name];
      } else {
        var k :| k in table && x in table[k];
        assert k != name;
        assert k in table[name := l] && x in table[name := l][k];
      }
    }
  }

  /** `gen_nf_quick_check`'s fill-in loop: every sub-table gets its `y` entry. */
  method NfQuickCheckFill(nf: map<String, map<String, seq<nat>>>, asciiProps: bool)
      returns (nf': map<String, map<String, seq<nat>>>)
    ensures nf'.Keys == nf.Keys
    ensures forall k :: k in nf ==> "y" in nf'[k] && nf'[k] == nf[k]["y" := nf'[k]["y"]]
    ensures forall k :: k in nf ==> Elems(nf'[k]["y"]) == AllCodes(asciiProps) - Assigned(nf[k])
  {
    nf' := nf;
    var keys := nf.Keys;
    var all := AllCodes(asciiProps);
    while keys != {}
      invariant keys <= nf.Keys && nf'.Keys == nf.Keys
      invariant forall k :: k in keys ==> nf'[k] == nf[k]
      invariant forall k :: k in nf && k !in keys ==> "y" in nf'[k] && nf'[k] == nf[k]["y" := nf'[k]["y"]]
      invariant forall k :: k in nf && k !in keys ==> Elems(nf'[k]["y"]) == all - Assigned(nf[k])
      decreases keys
    {
      var k1 :| k1 in keys;
      var v1 := FillUnassigned(nf'[k1], "y", all);
      nf' := nf'[k1 := v1];
      keys := keys - {k1};
    }
  }

  // ---------------------------------------------------------------------
  // gen_uposix
  // ---------------------------------------------------------------------

  /** A key of the form `^x`: the inverted entry of `x`. */
  predicate Caret(k: String) {
    |k| > 0 && k[0] == '^'
  }

  /** The code points the entries of `m` that are not inverted list. */
  ghost function PlainAssigned(m: map<String, seq<nat>>): set<nat> {
    set k, x | k in m && !Caret(k) && x in m[k] :: x
  }

  /** `for sub in m: if not sub.startswith('^'): s |= set(m[sub])`. */
  method PlainUnionOf(m: map<String, seq<nat>>) returns (s: set<nat>)
    ensures s == PlainAssigned(m)
  {
    s := {};
    var keys := m.Keys;
    while keys != {}
      invariant keys <= m.Keys
      invariant s == set k, x | k in m && k !in keys && !Caret(k) && x in m[k] :: x
      decreases keys
    {
      var k :| k in keys;
      if !Caret(k) {
        s := s + Elems(m[k]);
      }
      keys := keys - {k};
    }
  }

  /** The eleven classes `gen_uposix` writes into the POSIX table. */
  datatype PosixClasses = PosixClasses(
    punct: seq<nat>, digit: seq<nat>, xdigit: seq<nat>, posixXDigit: seq<nat>, posixAlnum: seq<nat>,
    alnum: seq<nat>, blank: seq<nat>, graph: seq<nat>, cntrl: seq<nat>, printable: seq<nat>, ascii: seq<nat>)

  /** Every lookup `gen_uposix` makes succeeds (a missing key raises KeyError). */
  predicate HasPosixInputs(table: map<String, map<String, seq<nat>>>, posix: map<String, seq<nat>>) {
    && "p" in table && "s" in table && "n" in table && "d" in table["n"] && "z" in table && "s" in table["z"]
    && "c" in table && "c" in table["c"] && "n" in table["c"] && "s" in table["c"]
    && "alphabetic" in posix && "hexdigit" in posix && "whitespace" in posix
  }

  /** The set each class is built from. */
  ghost predicate PosixFormulas(table: map<String, map<String, seq<nat>>>, posix: map<String, seq<nat>>,
                                asciiProps: bool, c: PosixClasses)
    requires HasPosixInputs(table, posix)
  {
    && Elems(c.punct) == (PlainAssigned(table["p"]) + PlainAssigned(table["s"])) - Elems(posix["alphabetic"])
    && Elems(c.digit) == Elems(IntRange(0x30, 0x39))
    && Elems(c.xdigit) == Elems(table["n"]["d"]) + Elems(posix["hexdigit"])
    && Elems(c.posixXDigit) == Elems(IntRange(0x30, 0x39)) + Elems(IntRange(0x41, 0x46)) + Elems(IntRange(0x61, 0x66))
    && Elems(c.posixAlnum) == Elems(posix["alphabetic"]) + Elems(c.digit)
    && Elems(c.alnum) == Elems(posix["alphabetic"]) + Elems(table["n"]["d"])
    && Elems(c.blank) == Elems(table["z"]["s"] + [0x09])
    && Elems(c.graph) == AllCodes(asciiProps) - (Elems(posix["whitespace"]) + Elems(table["c"]["c"])
                                                 + Elems(table["c"]["n"]) + Elems(table["c"]["s"]))
    && Elems(c.cntrl) == Elems(table["c"]["c"])
    && Elems(c.printable) == (Elems(c.graph) + Elems(c.blank)) - Elems(c.cntrl)
    && Elems(c.ascii) == Elems(IntRange(0, 0x7F))
  }

  /** The POSIX table with the eleven classes written. */
  function WritePosix(posix: map<String, seq<nat>>, c: PosixClasses): map<String, seq<nat>> {
    posix["posixpunct" := c.punct]["posixdigit" := c.digit]["xdigit" := c.xdigit]["posixxdigit" := c.posixXDigit]
         ["posixalnum" := c.posixAlnum]["alnum" := c.alnum]["posixblank" := c.blank]["posixgraph" := c.graph]
         ["posixcntrl" := c.cntrl]["posixprint" := c.printable]["posixascii" := c.ascii]
  }

  /**
   * `gen_uposix(table, posix_table, ascii_props)`: KeyError when a table
   * it reads is missing; otherwise the POSIX table with the eleven
   * classes written, each the set its formula names.
   */
  method GenUPosix(table: map<String, map<String, seq<nat>>>, posix: map<String, seq<nat>>, asciiProps: bool)
      returns (r: Result<map<String, seq<nat>>, PyError>, c: PosixClasses)
    ensures r.Ok? <==> HasPosixInputs(table, posix)
    ensures r.Ok? ==> PosixFormulas(table, posix, asciiProps, c) && r.value == WritePosix(posix, c)
  {
    c := PosixClasses([], [], [], [], [], [], [], [], [], [], []);
    if !HasPosixInputs(table, posix) {
      r := Err(KeyError);
      return;
    }
    var p := PlainUnionOf(table["p"]);
    var sy := PlainUnionOf(table["s"]);
    var punct := ListOf((p + sy) - Elems(posix["alphabetic"]));
    var digit := ListOf(Elems(IntRange(0x30, 0x39)));
    var xdigit := ListOf(Elems(table["n"]["d"]) + Elems(posix["hexdigit"]));
    var posixXDigit := ListOf(Elems(IntRange(0x30, 0x39)) + Elems(IntRange(0x41, 0x46)) + Elems(IntRange(0x61, 0x66)));
    var posixAlnum := ListOf(Elems(posix["alphabetic"]) + Elems(digit));
    var alnum := ListOf(Elems(posix["alphabetic"]) + Elems(table["n"]["d"]));
    var blank := ListOf(Elems(table["z"]["s"] + [0x09]));
    var graph := ListOf(AllCodes(asciiProps) - (Elems(posix["whitespace"]) + Elems(table["c"]["c"])
                                                + Elems(table["c"]["n"]) + Elems(table["c"]["s"])));
    var cntrl := ListOf(Elems(table["c"]["c"]));
    var printable := ListOf((Elems(graph) + Elems(blank)) - Elems(cntrl));
    var ascii := ListOf(Elems(IntRange(0, 0x7F)));
    c := PosixClasses(punct, digit, xdigit, posixXDigit, posixAlnum, alnum, blank, graph, cntrl, printable, ascii);
    r := Ok(WritePosix(posix, c));
  }

  /** `posixdigit` is 0x30..0x39, `posixascii` is 0..0x7F, and `posixxdigit` is `[0-9A-Fa-f]`. */
  lemma PosixFixedClasses(table: map<String, map<String, seq<nat>>>, posix: map<String, seq<nat>>,
                          asciiProps: bool, c: PosixClasses)
    requires HasPosixInputs(table, posix) && PosixFormulas(table, posix, asciiProps, c)
    ensures forall x :: x in c.digit <==> 0x30 <= x <= 0x39
    ensures forall x: nat :: x in c.ascii <==> x <= 0x7F
    ensures forall x :: x in c.posixXDigit <==> 0x30 <= x <= 0x39 || 0x41 <= x <= 0x46 || 0x61 <= x <= 0x66
  {
    IntRangeMembers(0x30, 0x39);
    IntRangeMembers(0x41, 0x46);
    IntRangeMembers(0x61, 0x66);
    IntRangeMembers(0, 0x7F);
    forall x ensures x in c.digit <==> 0x30 <= x <= 0x39 {
      assert x in c.digit <==> x in Elems(c.digit);
    }
    forall x: nat ensures x in c.ascii <==> x <= 0x7F {
      assert x in c.ascii <==> x in Elems(c.ascii);
      assert x in Elems(IntRange(0, 0x7F)) <==> x in IntRange(0, 0x7F);
    }
    forall x ensures x in c.posixXDigit <==> 0x30 <= x <= 0x39 || 0x41 <= x <= 0x46 || 0x61 <= x <= 0x66 {
      assert x in c.posixXDigit <==> x in Elems(c.posixXDigit);
    }
  }

  /**
   * `posixpunct` holds the punctuation and symbol code points that are not
   * alphabetic; `posixprint` holds no control character; `posixgraph`
   * stays within the table's code space and holds no white space and no
   * control, unassigned or surrogate code point; `posixalnum` holds every
   * digit.
   */
  lemma PosixDerivedClasses(table: map<String, map<String, seq<nat>>>, posix: map<String, seq<nat>>,
                            asciiProps: bool, c: PosixClasses)
    requires HasPosixInputs(table, posix) && PosixFormulas(table, posix, asciiProps, c)
    ensures forall x :: x in c.punct <==> (x in PlainAssigned(table["p"]) || x in PlainAssigned(table["s"]))
                                          && x !in posix["alphabetic"]
    ensures forall x :: x in c.printable ==> x !in table["c"]["c"]
    ensures forall x :: x in c.graph ==> x <= (if asciiProps then MaxValidAscii else MaxCodePoint)
                                         && x !in posix["whitespace"] && x !in table["c"]["c"]
                                         && x !in table["c"]["n"] && x !in table["c"]["s"]
    ensures forall x :: 0x30 <= x <= 0x39 ==> x in c.posixAlnum
  {
    IntRangeMembers(0, if asciiProps then MaxValidAscii else MaxCodePoint);
    IntRangeMembers(0x30, 0x39);
    forall x ensures x in c.punct <==> (x in PlainAssigned(table["p"]) || x in PlainAssigned(table["s"]))
                                       && x !in posix["alphabetic"] {
      assert x in c.punct <==> x in Elems(c.punct);
      assert x in posix["alphabetic"] <==> x in Elems(posix["alphabetic"]);
    }
    forall x | x in c.printable ensures x !in table["c"]["c"] {
      assert x in Elems(c.printable);
      assert x in table["c"]["c"] ==> x in Elems(c.cntrl);
    }
    forall x | x in c.graph
      ensures x <= (if asciiProps then MaxValidAscii else MaxCodePoint)
              && x !in posix["whitespace"] && x !in table["c"]["c"] && x !in table["c"]["n"] && x !in table["c"]["s"]
    {
      assert x in Elems(c.graph);
      assert x in AllCodes(asciiProps);
      assert x !in Elems(posix["whitespace"]) && x !in Elems(table["c"]["c"]);
      assert x !in Elems(table["c"]["n"]) && x !in Elems(table["c"]["s"]);
    }
    forall x | 0x30 <= x <= 0x39 ensures x in c.posixAlnum {
      assert x in Elems(IntRange(0x30, 0x39));
      assert x in Elems(c.digit);
      assert x in Elems(c.posixAlnum);
    }
  }

  // ---------------------------------------------------------------------
  // char2range, dict level
  // ---------------------------------------------------------------------

  /** A table value: a code point list, a nested table, or a range text already written. */
  datatype Entry = Codes(codes: seq<nat>) | Nested(entries: map<String, Entry>) | Text(text: String)

  /** Every code point list in the entry, at any depth, is free of repeats. */
  ghost predicate ListsDistinct(e: Entry)
    decreases e
  {
    match e
    case Codes(v) => Distinct(v)
    case Text(_) => true
    case Nested(m) => forall k :: k in m ==> ListsDistinct(m[k])
  }

  /** The key the complement of entry `k` is written under: `k[1:]` for an inverted key, `'^' + k` otherwise. */
  function Partner(k: String): String {
    if Caret(k) then k[1..] else "^" + k
  }

  /** `k` comes first among `ks` in `sorted` order. */
  predicate IsLeast(k: String, ks: set<String>) {
    k in ks && forall j :: j in ks ==> LexLe(k, j)
  }

  lemma LexLeAntisymmetric(a: String, b: String)
    requires LexLe(a, b) && LexLe(b, a)
    ensures a == b
    decreases |a|
  {
    if a != [] && b != [] {
      LexLeAntisymmetric(a[1..], b[1..]);
      assert a == [a[0]] + a[1..] && b == [b[0]] + b[1..];
    }
  }

  lemma {:induction false} LeastExists(ks: set<String>)
    requires ks != {}
    ensures exists k :: IsLeast(k, ks)
    decreases |ks|
  {
    var x :| x in ks;
    if ks != {x} {
      LeastExists(ks - {x});
      var y :| IsLeast(y, ks - {x});
      LexLeTotal(x, y);
      if LexLe(x, y) {
        forall j | j in ks ensures LexLe(x, j) {
          if j == x {
            LexLeReflexive(x);
          } else {
            LexLeTransitive(x, y, j);
          }
        }
        assert IsLeast(x, ks);
      } else {
        assert IsLeast(y, ks);
      }
    } else {
      LexLeReflexive(x);
      assert IsLeast(x, ks);
    }
  }

  lemma LeastUnique(a: String, b: String, ks: set<String>)
    requires IsLeast(a, ks) && IsLeast(b, ks)
    ensures a == b
  {
    LexLeAntisymmetric(a, b);
  }

  /** The first of `ks` in sorted order. */
  ghost function Least(ks: set<String>): (k: String)
    requires ks != {}
    ensures IsLeast(k, ks)
  {
    LeastExists(ks);
    var k :| IsLeast(k, ks);
    k
  }

  /** The complement text of a repeat-free list. */
  ghost function ComplementOf(v: seq<nat>, maxrange: nat): String
    requires Distinct(v)
  {
    SortCodesOrdered(v);
    ComplementText(SortCodes(v), maxrange)
  }

  /** The table a walk over `d0` may be at: the keys not yet visited hold their first value or a text. */
  ghost predicate Pending(d0: map<String, Entry>, cur: map<String, Entry>, rest: set<String>) {
    rest <= d0.Keys && forall j :: j in rest ==> j in cur && (cur[j] == d0[j] || cur[j].Text?)
  }

  ghost predicate DistinctLists(d: map<String, Entry>) {
    forall k :: k in d ==> ListsDistinct(d[k])
  }

  /**
   * One pass of the loop over the keys, for key `k`: a text raises
   * AttributeError (it is handed to the recursive call, which asks it for
   * `keys()`); a nested table is converted in place; a list becomes its
   * run text and, when inverting, its complement text goes under the
   * partner key.
   */
  ghost function ConvertKey(d0: map<String, Entry>, cur: map<String, Entry>, k: String, invert: bool,
                            maxrange: nat): Result<map<String, Entry>, PyError>
    requires Pending(d0, cur, {k}) && (invert ==> DistinctLists(d0))
    decreases Nested(d0), 0, 0
  {
    match cur[k]
    case Text(_) => Err(AttributeError)
    case Nested(m) =>
      (match Converted(m, invert, maxrange)
       case Ok(m') => Ok(cur[k := Nested(m')])
       case Err(e) => Err(e))
    case Codes(v) =>
      var written := cur[k := Text(RunsText(SortCodes(v)))];
      if invert then Ok(written[Partner(k) := Text(ComplementOf(v, maxrange))]) else Ok(written)
  }

  /** The rest of the walk: the keys of `rest` in sorted order, from the table `cur`. */
  ghost function ConvertSet(d0: map<String, Entry>, cur: map<String, Entry>, rest: set<String>, invert: bool,
                            maxrange: nat): Result<map<String, Entry>, PyError>
    requires Pending(d0, cur, rest) && (invert ==> DistinctLists(d0))
    decreases Nested(d0), 1, |rest|
  {
    if rest == {} then Ok(cur)
    else
      var k := Least(rest);
      match ConvertKey(d0, cur, k, invert, maxrange)
      case Err(e) => Err(e)
      case Ok(next) =>
        ConvertKeyKeeps(d0, cur, k, invert, maxrange, rest);
        ConvertSet(d0, next, rest - {k}, invert, maxrange)
  }

  /** `char2range(d, invert=invert)` on the table `d`. */
  ghost function Converted(d: map<String, Entry>, invert: bool, maxrange: nat): Result<map<String, Entry>, PyError>
    requires invert ==> DistinctLists(d)
    decreases Nested(d), 2
  {
    ConvertSet(d, d, d.Keys, invert, maxrange)
  }

  /** A pass for `k` writes only `k` and, as a text, the partner key. */
  lemma ConvertKeyKeeps(d0: map<String, Entry>, cur: map<String, Entry>, k: String, invert: bool, maxrange: nat,
                        rest: set<String>)
    requires k in rest && Pending(d0, cur, rest) && (invert ==> DistinctLists(d0))
    requires ConvertKey(d0, cur, k, invert, maxrange).Ok?
    ensures Pending(d0, ConvertKey(d0, cur, k, invert, maxrange).value, rest - {k})
    decreases Nested(d0), 0, 1
  {
  }

  /**
   * The dict level of `char2range(d, is_bytes, invert)`: the keys in
   * sorted order, each list replaced by its run text (and, when
   * inverting, its complement written under the partner key), each
   * nested table converted in place. `maxrange` is the interpreter's
   * `sys.maxunicode`.
   */
  method Char2Range(d: map<String, Entry>, invert: bool, maxrange: nat) returns (r: Result<map<String, Entry>, PyError>)
    requires invert ==> DistinctLists(d)
    ensures r == Converted(d, invert, maxrange)
    decreases Nested(d)
  {
    var cur := d;
    var rest := d.Keys;
    while rest != {}
      invariant Pending(d, cur, rest)
      invariant ConvertSet(d, cur, rest, invert, maxrange) == Converted(d, invert, maxrange)
      decreases |rest|
    {
      LeastExists(rest);
      var k1 :| IsLeast(k1, rest);
      LeastUnique(k1, Least(rest), rest);
      ghost var before := cur;
      ghost var step := ConvertKey(d, cur, k1, invert, maxrange);
      var v1 := cur[k1];
      match v1 {
        case Text(_) =>
          r := Err(AttributeError);
          return;
        case Nested(m) =>
          var sub := Char2Range(m, invert, maxrange);
          if sub.Err? {
            r := Err(sub.error);
            return;
          }
          cur := cur[k1 := Nested(sub.value)];
        case Codes(v) =>
          var text, itext := ListRanges(v, invert, maxrange);
          cur := cur[k1 := Text(text)];
          if invert {
            cur := cur[Partner(k1) := Text(itext)];
          }
      }
      assert step == Ok(cur);
      ConvertKeyKeeps(d, before, k1, invert, maxrange, rest);
      rest := rest - {k1};
    }
    r := Ok(cur);
  }

  /** A key still to be visited that holds a text makes the walk raise AttributeError. */
  lemma {:induction false} PendingTextRaises(d0: map<String, Entry>, cur: map<String, Entry>, rest: set<String>,
                                             y: String, invert: bool, maxrange: nat)
    requires Pending(d0, cur, rest) && (invert ==> DistinctLists(d0))
    requires y in rest && cur[y].Text?
    ensures ConvertSet(d0, cur, rest, invert, maxrange).Err?
    decreases |rest|
  {
    var k := Least(rest);
    var step := ConvertKey(d0, cur, k, invert, maxrange);
    if k != y && step.Ok? {
      ConvertKeyKeeps(d0, cur, k, invert, maxrange, rest);
      assert step.value[y].Text?;
      PendingTextRaises(d0, step.value, rest - {k}, y, invert, maxrange);
    }
  }

  /** A table that already holds a text raises AttributeError. */
  lemma TextValueRaises(d: map<String, Entry>, y: String, invert: bool, maxrange: nat)
    requires (invert ==> DistinctLists(d)) && y in d && d[y].Text?
    ensures Converted(d, invert, maxrange).Err?
  {
    PendingTextRaises(d, d, d.Keys, y, invert, maxrange);
  }

  lemma {:induction false} CollisionRaisesFrom(d0: map<String, Entry>, cur: map<String, Entry>, rest: set<String>,
                                               x: String, maxrange: nat)
    requires Pending(d0, cur, rest) && DistinctLists(d0)
    requires x in rest && Partner(x) in rest && cur[x].Codes? && StringLess(x, Partner(x))
    ensures ConvertSet(d0, cur, rest, true, maxrange).Err?
    decreases |rest|
  {
    var k := Least(rest);
    var step := ConvertKey(d0, cur, k, true, maxrange);
    if step.Ok? {
      ConvertKeyKeeps(d0, cur, k, true, maxrange, rest);
      if k == x {
        PendingTextRaises(d0, step.value, rest - {k}, Partner(x), true, maxrange);
      } else {
        assert k != Partner(x);
        if step.value[x].Text? {
          PendingTextRaises(d0, step.value, rest - {k}, x, true, maxrange);
        } else {
          CollisionRaisesFrom(d0, step.value, rest - {k}, x, maxrange);
        }
      }
    }
  }

  /**
   * When inverting, a list under `x` whose partner key is also in the
   * table, and sorts after `x`, makes `char2range` raise AttributeError:
   * the complement of `x` overwrites the partner's value with a text
   * before the partner is visited.
   */
  lemma CollisionRaises(d: map<String, Entry>, x: String, maxrange: nat)
    requires DistinctLists(d) && x in d && Partner(x) in d && d[x].Codes? && StringLess(x, Partner(x))
    ensures Converted(d, true, maxrange).Err?
  {
    CollisionRaisesFrom(d, d, d.Keys, x, maxrange);
  }

  /** Every value is a code point list. */
  ghost predicate Flat(d: map<String, Entry>) {
    forall k :: k in d ==> d[k].Codes?
  }

  /** No key is another's partner, and no two keys share a partner. */
  ghost predicate PartnersFree(d: map<String, Entry>) {
    && (forall k :: k in d ==> Partner(k) !in d)
    && (forall a, b :: a in d && b in d && Partner(a) == Partner(b) ==> a == b)
  }

  /** The conditions under which a flat table converts key by key. */
  ghost predicate FlatWalk(d0: map<String, Entry>, cur: map<String, Entry>, rest: set<String>, invert: bool) {
    && Pending(d0, cur, rest) && Flat(d0) && (invert ==> DistinctLists(d0) && PartnersFree(d0))
    && forall j :: j in rest ==> cur[j] == d0[j]
  }

  lemma {:induction false} FlatFrame(d0: map<String, Entry>, cur: map<String, Entry>, rest: set<String>,
                                     y: String, invert: bool, maxrange: nat)
    requires FlatWalk(d0, cur, rest, invert)
    requires y in cur && y !in rest && (invert ==> forall j :: j in rest ==> Partner(j) != y)
    ensures ConvertSet(d0, cur, rest, invert, maxrange).Ok?
    ensures y in ConvertSet(d0, cur, rest, invert, maxrange).value
    ensures ConvertSet(d0, cur, rest, invert, maxrange).value[y] == cur[y]
    decreases |rest|
  {
    if rest != {} {
      var k := Least(rest);
      var next := ConvertKey(d0, cur, k, invert, maxrange).value;
      ConvertKeyKeeps(d0, cur, k, invert, maxrange, rest);
      assert FlatWalk(d0, next, rest - {k}, invert);
      FlatFrame(d0, next, rest - {k}, y, invert, maxrange);
    }
  }

  lemma {:induction false} FlatSteps(d0: map<String, Entry>, cur: map<String, Entry>, rest: set<String>,
                                     y: String, invert: bool, maxrange: nat)
    requires FlatWalk(d0, cur, rest, invert) && y in rest
    ensures ConvertSet(d0, cur, rest, invert, maxrange).Ok?
    ensures y in ConvertSet(d0, cur, rest, invert, maxrange).value
    ensures ConvertSet(d0, cur, rest, invert, maxrange).value[y] == Text(RunsText(SortCodes(d0[y].codes)))
    ensures invert ==> Partner(y) in ConvertSet(d0, cur, rest, invert, maxrange).value
    ensures invert ==> ConvertSet(d0, cur, rest, invert, maxrange).value[Partner(y)]
                       == Text(ComplementOf(d0[y].codes, maxrange))
    decreases |rest|
  {
    var k := Least(rest);
    var next := ConvertKey(d0, cur, k, invert, maxrange).value;
    ConvertKeyKeeps(d0, cur, k, invert, maxrange, rest);
    assert FlatWalk(d0, next, rest - {k}, invert);
    if k == y {
      FlatFrame(d0, next, rest - {k}, y, invert, maxrange);
      if invert {
        FlatFrame(d0, next, rest - {k}, Partner(y), invert, maxrange);
      }
    } else {
      FlatSteps(d0, next, rest - {k}, y, invert, maxrange);
    }
  }

  /**
   * For a table of code point lists whose keys are clear of each other's
   * partners, `char2range` succeeds, and every key `y` ends up holding the
   * run text of its sorted list and, when inverting, `Partner(y)` the
   * complement text.
   */
  lemma FlatConversion(d: map<String, Entry>, y: String, invert: bool, maxrange: nat)
    requires Flat(d) && (invert ==> DistinctLists(d) && PartnersFree(d)) && y in d
    ensures Converted(d, invert, maxrange).Ok?
    ensures y in Converted(d, invert, maxrange).value
    ensures Converted(d, invert, maxrange).value[y] == Text(RunsText(SortCodes(d[y].codes)))
    ensures invert ==> Partner(y) in Converted(d, invert, maxrange).value
    ensures invert ==> Converted(d, invert, maxrange).value[Partner(y)] == Text(ComplementOf(d[y].codes, maxrange))
  {
    FlatSteps(d, d, d.Keys, y, invert, maxrange);
  }
}
