/**
 * The fix and diagnostic bookkeeping of the TSLint language server
 * (`tslintServer.js`, extension 1.0.33): the one-entry configuration cache,
 * the diagnostic key, the diagnostic built from a rule failure, and the
 * selection of non-overlapping fixes for "fix all".
 *
 * Positions come from the linter and from `document.positionAt`, which is a
 * parameter; the language-server connection is not modelled.
 */
module TslintServer {
  import opened Wrappers
  import opened JsString

  // ---------------------------------------------------------------------
  // Configuration cache

  /** A loaded linter configuration; only the flag the server reads is kept. */
  datatype Configuration = Configuration(isDefaultLinterConfig: bool)

  /** `ConfigCache`: the configuration of the last file it was asked to hold. */
  class ConfigCache {
    var filePath: Option<String>
    var configuration: Option<Configuration>

    constructor()
      ensures filePath == None && configuration == None
    {
      filePath := None;
      configuration := None;
    }

    method Set(path: String, config: Option<Configuration>)
      modifies this
      ensures filePath == Some(path) && configuration == config
      ensures Get(path) == config && forall q :: q != path ==> Get(q) == None
    {
      filePath := Some(path);
      configuration := config;
    }

    /** The stored configuration, for the stored path only. */
    function Get(forPath: String): (r: Option<Configuration>)
      reads this
      ensures filePath == Some(forPath) ==> r == configuration
      ensures filePath != Some(forPath) ==> r == None
    {
      if filePath == Some(forPath) then configuration else None
    }

    function IsDefaultLinterConfig(): (b: bool)
      reads this
      ensures b <==> configuration.Some? && configuration.value.isDefaultLinterConfig
      ensures configuration == None ==> !b
    {
      match configuration
      case None => false
      case Some(c) => c.isDefaultLinterConfig
    }

    method Flush()
      modifies this
      ensures filePath == None && configuration == None
      ensures forall q :: Get(q) == None
      ensures !IsDefaultLinterConfig()
    {
      filePath := None;
      configuration := None;
    }
  }

  // ---------------------------------------------------------------------
  // Diagnostics

  datatype Position = Position(line: nat, character: nat)

  datatype Range = Range(start: Position, end: Position)

  datatype Severity = Error | Warning

  /** `alwaysShowRuleFailuresAsWarnings` of the user settings. */
  datatype Settings = Settings(alwaysShowRuleFailuresAsWarnings: bool)

  /**
   * A rule failure: `ruleSeverity` is `None` for a linter older than
   * version 5, which has no `getRuleSeverity`.
   */
  datatype Problem = Problem(failure: String, ruleName: String, ruleSeverity: Option<String>, start: Position, end: Position)

  datatype Diagnostic = Diagnostic(severity: Severity, message: String, range: Range, code: String, source: String)

  /** A number followed by the separator `c` and the rest of a key. */
  function NumberThen(n: nat, c: char, rest: String): String {
    NatToString(n) + [c] + rest
  }

  /** `computeKey`: `[startLine,startChar,endLine,endChar]-code`. */
  function ComputeKey(d: Diagnostic): (k: String)
    ensures |k| > |d.code| + 1 && k[0] == '[' && k[|k| - |d.code| - 1..] == "-" + d.code
  {
    var r := d.range;
    "[" + NumberThen(r.start.line, ',', NumberThen(r.start.character, ',',
            NumberThen(r.end.line, ',', NumberThen(r.end.character, ']', "-" + d.code))))
  }

  /** `makeDiagnostic`. */
  function MakeDiagnostic(settings: Option<Settings>, problem: Problem): (d: Diagnostic)
    ensures d.severity == Error <==>
      !(settings.Some? && settings.value.alwaysShowRuleFailuresAsWarnings) && problem.ruleSeverity == Some("error")
    ensures problem.ruleName != [] ==> d.message == problem.failure + " (" + problem.ruleName + ")"
    ensures problem.ruleName == [] ==> d.message == problem.failure
    ensures d.range == Range(problem.start, problem.end) && d.code == problem.ruleName && d.source == "tslint"
  {
    var message := if problem.ruleName != [] then problem.failure + " (" + problem.ruleName + ")" else problem.failure;
    var alwaysWarning := settings.Some? && settings.value.alwaysShowRuleFailuresAsWarnings;
    var severity := if !alwaysWarning && problem.ruleSeverity == Some("error") then Error else Warning;
    Diagnostic(severity, message, Range(problem.start, problem.end), problem.ruleName, "tslint")
  }

  lemma DigitChar(d: nat)
    requires d < 10
    ensures "0123456789"[d] as int == 48 + d
  {
    if d == 0 {} else if d == 1 {} else if d == 2 {} else if d == 3 {} else if d == 4 {}
    else if d == 5 {} else if d == 6 {} else if d == 7 {} else if d == 8 {}
  }

  /** Distinct numbers are written differently. */
  lemma {:induction false} NatToStringInjective(a: nat, b: nat)
    requires NatToString(a) == NatToString(b)
    ensures a == b
    decreases a
  {
    var s := NatToString(a);
    if a < 10 && b < 10 {
      DigitChar(a);
      DigitChar(b);
    } else if a < 10 || b < 10 {
      assert false;
    } else {
      var pa, pb := NatToString(a / 10), NatToString(b / 10);
      assert s == pa + ["0123456789"[a % 10]];
      assert s == pb + ["0123456789"[b % 10]];
      assert pa == s[..|s| - 1] == pb;
      DigitChar(a % 10);
      DigitChar(b % 10);
      NatToStringInjective(a / 10, b / 10);
    }
  }

  /** A separator `c` that neither `x` nor `y` contains marks where they end. */
  lemma SplitAtSeparator(x: String, y: String, c: char, u: String, v: String)
    requires c !in x && c !in y && x + [c] + u == y + [c] + v
    ensures x == y && u == v
  {
    var l, r := x + [c] + u, y + [c] + v;
    assert |x| == |y| by {
      FirstSeparator(x, c, u);
      FirstSeparator(y, c, v);
    }
    assert x == l[..|x|] && y == r[..|y|];
    assert u == l[|x| + 1..] && v == r[|y| + 1..];
  }

  lemma FirstSeparator(x: String, c: char, u: String)
    requires c !in x
    ensures (x + [c] + u)[|x|] == c && forall k :: 0 <= k < |x| ==> (x + [c] + u)[k] != c
  {
    assert forall k :: 0 <= k < |x| ==> (x + [c] + u)[k] == x[k];
  }

  /** A number followed by a separator reads back as that number and what follows. */
  lemma NumberThenInjective(a: nat, b: nat, c: char, u: String, v: String)
    requires c == ',' || c == ']'
    requires NumberThen(a, c, u) == NumberThen(b, c, v)
    ensures a == b && u == v
  {
    assert c !in NatToString(a) && c !in NatToString(b);
    SplitAtSeparator(NatToString(a), NatToString(b), c, u, v);
    NatToStringInjective(a, b);
  }

  /** The key tells apart any two diagnostics whose ranges or codes differ. */
  lemma ComputeKeyInjective(d: Diagnostic, e: Diagnostic)
    requires ComputeKey(d) == ComputeKey(e)
    ensures d.range == e.range && d.code == e.code
  {
    var r, s := d.range, e.range;
    var k3, m3 := NumberThen(r.end.character, ']', "-" + d.code), NumberThen(s.end.character, ']', "-" + e.code);
    var k2, m2 := NumberThen(r.end.line, ',', k3), NumberThen(s.end.line, ',', m3);
    var k1, m1 := NumberThen(r.start.character, ',', k2), NumberThen(s.start.character, ',', m2);
    assert NumberThen(r.start.line, ',', k1) == NumberThen(s.start.line, ',', m1) by {
      assert ComputeKey(d)[1..] == NumberThen(r.start.line, ',', k1);
      assert ComputeKey(e)[1..] == NumberThen(s.start.line, ',', m1);
    }
    NumberThenInjective(r.start.line, s.start.line, ',', k1, m1);
    NumberThenInjective(r.start.character, s.start.character, ',', k2, m2);
    NumberThenInjective(r.end.line, s.end.line, ',', k3, m3);
    NumberThenInjective(r.end.character, s.end.character, ']', "-" + d.code, "-" + e.code);
    assert d.code == ("-" + d.code)[1..];
  }

  /** Two failures whose diagnostics share a key are at the same place and of the same rule. */
  lemma DiagnosticKeyIdentifiesProblem(s1: Option<Settings>, p1: Problem, s2: Option<Settings>, p2: Problem)
    requires ComputeKey(MakeDiagnostic(s1, p1)) == ComputeKey(MakeDiagnostic(s2, p2))
    ensures p1.start == p2.start && p1.end == p2.end && p1.ruleName == p2.ruleName
  {
    ComputeKeyInjective(MakeDiagnostic(s1, p1), MakeDiagnostic(s2, p2));
  }

  // ---------------------------------------------------------------------
  // Fixes

  /** A linter replacement, by offsets into the document. */
  datatype Replacement = Replacement(start: int, end: int, text: Option<String>)

  /** An edit of an auto fix: the source's `range: [start, end]` and `text`. */
  datatype Edit = Edit(start: Position, end: Position, text: Option<String>)

  /**
   * What a rule failure offers as a fix: a version 4 `Fix` with its
   * `replacements`, a version 5 replacement array or single replacement, or
   * an edit made by the server's own fixer.
   */
  datatype Fix =
    | Tslint4Fix(replacements: seq<Replacement>)
    | ReplacementArray(items: seq<Replacement>)
    | SingleReplacement(replacement: Replacement)
    | AutofixEdit(edit: Edit)

  datatype AutoFix = AutoFix(labelText: String, documentVersion: int, edits: seq<Edit>)

  /** `replacementsAreEmpty`. */
  predicate ReplacementsAreEmpty(fix: Fix)
    ensures ReplacementsAreEmpty(fix) ==> fix.Tslint4Fix? || fix.ReplacementArray?
  {
    match fix
    case Tslint4Fix(rs) => |rs| == 0
    case ReplacementArray(rs) => |rs| == 0
    case SingleReplacement(_) => false
    case AutofixEdit(_) => false
  }

  function ConvertReplacement(positionAt: int -> Position, repl: Replacement): (e: Edit)
    ensures e == Edit(positionAt(repl.start), positionAt(repl.end), repl.text)
  {
    Edit(positionAt(repl.start), positionAt(repl.end), repl.text)
  }

  function ConvertAll(positionAt: int -> Position, rs: seq<Replacement>): (es: seq<Edit>)
    ensures |es| == |rs| && forall k :: 0 <= k < |rs| ==> es[k] == ConvertReplacement(positionAt, rs[k])
  {
    if rs == [] then [] else [ConvertReplacement(positionAt, rs[0])] + ConvertAll(positionAt, rs[1..])
  }

  /** `createAutoFix`; `positionAt` is the document's offset-to-position conversion. */
  function CreateAutoFix(failure: String, documentVersion: int, fix: Fix, positionAt: int -> Position): (a: AutoFix)
    ensures a.labelText == "Fix: " + failure && a.documentVersion == documentVersion
    ensures fix.AutofixEdit? ==> a.edits == [fix.edit]
    ensures fix.SingleReplacement? ==> a.edits == [ConvertReplacement(positionAt, fix.replacement)]
    ensures fix.Tslint4Fix? ==> a.edits == ConvertAll(positionAt, fix.replacements)
    ensures fix.ReplacementArray? ==> a.edits == ConvertAll(positionAt, fix.items)
  {
    var edits :=
      match fix
      case AutofixEdit(e) => [e]
      case Tslint4Fix(rs) => ConvertAll(positionAt, rs)
      case ReplacementArray(rs) => ConvertAll(positionAt, rs)
      case SingleReplacement(r) => ConvertAll(positionAt, [r]);
    AutoFix("Fix: " + failure, documentVersion, edits)
  }

  /** A fix is called empty exactly when it would give an auto fix without edits. */
  lemma ReplacementsAreEmptyIffNoEdits(failure: String, documentVersion: int, fix: Fix, positionAt: int -> Position)
    ensures ReplacementsAreEmpty(fix) <==> |CreateAutoFix(failure, documentVersion, fix, positionAt).edits| == 0
  {
  }

  /** `getLastEdit`: the last element, if any. */
  function GetLastEdit<T>(s: seq<T>): (r: Option<T>)
    ensures r.None? <==> |s| == 0
    ensures r.Some? ==> r.value == s[|s| - 1]
  {
    if |s| == 0 then None else Some(s[|s| - 1])
  }

  /** One pair of edits of `overlaps`: `last` ends at or after the start of `next`. */
  predicate EditOverlaps(last: Edit, next: Edit) {
    if last.end.line > next.start.line then true
    else if last.end.line < next.start.line then false
    else last.end.character >= next.start.character
  }

  /** The inner `nextFix.edits.some(...)`. */
  function SomeNextOverlaps(last: Edit, nexts: seq<Edit>): (b: bool)
    ensures b <==> exists j :: 0 <= j < |nexts| && EditOverlaps(last, nexts[j])
  {
    if nexts == [] then false
    else if EditOverlaps(last, nexts[0]) then true
    else
      var b := SomeNextOverlaps(last, nexts[1..]);
      assert forall j :: 1 <= j < |nexts| ==> nexts[j] == nexts[1..][j - 1];
      b
  }

  /** The outer `lastFix.edits.some(...)`. */
  function SomeLastOverlaps(lasts: seq<Edit>, nexts: seq<Edit>): (b: bool)
    ensures b <==> exists i, j :: 0 <= i < |lasts| && 0 <= j < |nexts| && EditOverlaps(lasts[i], nexts[j])
  {
    if lasts == [] then false
    else if SomeNextOverlaps(lasts[0], nexts) then true
    else
      var b := SomeLastOverlaps(lasts[1..], nexts);
      assert forall i :: 1 <= i < |lasts| ==> lasts[i] == lasts[1..][i - 1];
      b
  }

  /** `overlaps`: no previous fix overlaps nothing; otherwise some pair of edits overlaps. */
  function Overlaps(lastFix: Option<AutoFix>, nextFix: AutoFix): (b: bool)
    ensures lastFix.None? ==> !b
    ensures lastFix.Some? ==> (b <==> exists i, j :: 0 <= i < |lastFix.value.edits| && 0 <= j < |nextFix.edits|
                                       && EditOverlaps(lastFix.value.edits[i], nextFix.edits[j]))
  {
    match lastFix
    case None => false
    case Some(f) => SomeLastOverlaps(f.edits, nextFix.edits)
  }

  /** One edit before the other on separate lines never overlaps, and the same edit overlaps itself when it is not empty. */
  lemma EditOverlapsLines(last: Edit, next: Edit)
    ensures last.end.line < next.start.line ==> !EditOverlaps(last, next)
    ensures last.end.line > next.start.line ==> EditOverlaps(last, next)
    ensures last.end == next.start ==> EditOverlaps(last, next)
  {
  }

  // Sorting

  /** The text JavaScript's relational operators compare an object by: its `toString`. */
  const ObjectText: String := "[object Object]"

  /** A position object converted to a primitive for `<` and `>`. */
  function ToPrimitive(p: Position): (t: String)
    ensures t == ObjectText
  {
    ObjectText
  }

  /** A fix that can be sorted: the comparator reads its first edit. */
  predicate HasFirstEdit(f: AutoFix) {
    |f.edits| > 0
  }

  /**
   * The comparator of `sortFixes` as written: `editA.range[0] < editB.range[0]`
   * compares two position objects, which JavaScript does through their
   * common text `"[object Object]"`.
   */
  function CompareAsWritten(a: AutoFix, b: AutoFix): (c: int)
    requires HasFirstEdit(a) && HasFirstEdit(b)
    ensures -1 <= c <= 1
  {
    var ea, eb := a.edits[0], b.edits[0];
    if StringLess(ToPrimitive(ea.start), ToPrimitive(eb.start)) then -1
    else if StringLess(ToPrimitive(eb.start), ToPrimitive(ea.start)) then 1
    else if StringLess(ToPrimitive(ea.end), ToPrimitive(eb.end)) then -1
    else if StringLess(ToPrimitive(eb.end), ToPrimitive(ea.end)) then 1
    else 0
  }

  lemma CompareAsWrittenIsZero(a: AutoFix, b: AutoFix)
    requires HasFirstEdit(a) && HasFirstEdit(b)
    ensures CompareAsWritten(a, b) == 0
  {
    StringLessIrreflexive(ObjectText);
  }

  /** The evidently intended comparator: by the start line of the first edit, then by its start character. */
  function CompareStart(a: AutoFix, b: AutoFix): (c: int)
    requires HasFirstEdit(a) && HasFirstEdit(b)
    ensures c < 0 <==> StartBefore(a, b)
    ensures c > 0 <==> StartBefore(b, a)
  {
    var p, q := a.edits[0].start, b.edits[0].start;
    if p.line < q.line then -1
    else if p.line > q.line then 1
    else if p.character < q.character then -1
    else if p.character > q.character then 1
    else 0
  }

  predicate StartBefore(a: AutoFix, b: AutoFix)
    requires HasFirstEdit(a) && HasFirstEdit(b)
  {
    var p, q := a.edits[0].start, b.edits[0].start;
    p.line < q.line || (p.line == q.line && p.character < q.character)
  }

  predicate AllHaveFirstEdit(fixes: seq<AutoFix>) {
    forall k :: 0 <= k < |fixes| ==> HasFirstEdit(fixes[k])
  }

  /** The comparator `sortFixes` passes: as written, or as evidently intended. */
  datatype Comparator = AsWritten | ByStart

  function Compare(cmp: Comparator, a: AutoFix, b: AutoFix): int
    requires HasFirstEdit(a) && HasFirstEdit(b)
  {
    match cmp
    case AsWritten => CompareAsWritten(a, b)
    case ByStart => CompareStart(a, b)
  }

  /** A sequence of sortable fixes is its front and its sortable last fix. */
  lemma FirstEditParts(s: seq<AutoFix>)
    requires AllHaveFirstEdit(s) && |s| > 0
    ensures s == s[..|s| - 1] + [s[|s| - 1]] && AllHaveFirstEdit(s[..|s| - 1]) && HasFirstEdit(s[|s| - 1])
  {
    var init := s[..|s| - 1];
    forall k | 0 <= k < |init| ensures HasFirstEdit(init[k]) {
      assert init[k] == s[k];
    }
  }

  lemma FirstEditSnoc(s: seq<AutoFix>, y: AutoFix)
    requires AllHaveFirstEdit(s) && HasFirstEdit(y)
    ensures AllHaveFirstEdit(s + [y])
  {
    forall k | 0 <= k < |s| + 1 ensures HasFirstEdit((s + [y])[k]) {
      if k < |s| {
        assert (s + [y])[k] == s[k];
      }
    }
  }

  /** Stable insertion of `x` after every element it does not sort before. */
  function Insert(sorted: seq<AutoFix>, x: AutoFix, cmp: Comparator): (r: seq<AutoFix>)
    requires AllHaveFirstEdit(sorted) && HasFirstEdit(x)
    ensures multiset(r) == multiset(sorted) + multiset{x} && |r| == |sorted| + 1 && AllHaveFirstEdit(r)
  {
    if |sorted| == 0 then [x]
    else
      var init, last := sorted[..|sorted| - 1], sorted[|sorted| - 1];
      FirstEditParts(sorted);
      if Compare(cmp, last, x) > 0 then
        var r0 := Insert(init, x, cmp);
        FirstEditSnoc(r0, last);
        r0 + [last]
      else
        FirstEditSnoc(sorted, x);
        sorted + [x]
  }

  /** `Array.prototype.sort` with the comparator `cmp`, as a stable insertion sort. */
  function SortBy(fixes: seq<AutoFix>, cmp: Comparator): (r: seq<AutoFix>)
    requires AllHaveFirstEdit(fixes)
    ensures multiset(r) == multiset(fixes) && |r| == |fixes| && AllHaveFirstEdit(r)
  {
    if |fixes| == 0 then []
    else
      FirstEditParts(fixes);
      Insert(SortBy(fixes[..|fixes| - 1], cmp), fixes[|fixes| - 1], cmp)
  }

  /** `sortFixes` as written. */
  function SortFixesAsWritten(fixes: seq<AutoFix>): (r: seq<AutoFix>)
    requires AllHaveFirstEdit(fixes)
    ensures multiset(r) == multiset(fixes) && |r| == |fixes|
  {
    SortBy(fixes, AsWritten)
  }

  /** `sortFixes` as evidently intended: by the start of the first edit. The selection uses the order as written. */
  function SortFixes(fixes: seq<AutoFix>): seq<AutoFix>
    requires AllHaveFirstEdit(fixes)
  {
    SortBy(fixes, ByStart)
  }

  predicate SortedByStart(s: seq<AutoFix>)
    requires AllHaveFirstEdit(s)
  {
    forall i, j :: 0 <= i < j < |s| ==> !StartBefore(s[j], s[i])
  }

  /** As written the comparator finds every pair equal, so the fixes keep the order they came in. */
  lemma {:induction false} SortFixesAsWrittenKeepsOrder(fixes: seq<AutoFix>)
    requires AllHaveFirstEdit(fixes)
    ensures SortFixesAsWritten(fixes) == fixes
  {
    if |fixes| > 0 {
      var init, x := fixes[..|fixes| - 1], fixes[|fixes| - 1];
      FirstEditParts(fixes);
      SortByStep(fixes, AsWritten);
      SortFixesAsWrittenKeepsOrder(init);
      InsertAsWrittenAppends(init, x);
    }
  }

  /** The sort of a non-empty sequence inserts its last fix into the sorted front. */
  lemma SortByStep(fixes: seq<AutoFix>, cmp: Comparator)
    requires AllHaveFirstEdit(fixes) && |fixes| > 0 && AllHaveFirstEdit(fixes[..|fixes| - 1])
    ensures SortBy(fixes, cmp) == Insert(SortBy(fixes[..|fixes| - 1], cmp), fixes[|fixes| - 1], cmp)
  {
  }

  lemma InsertAsWrittenAppends(s: seq<AutoFix>, x: AutoFix)
    requires AllHaveFirstEdit(s) && HasFirstEdit(x)
    ensures Insert(s, x, AsWritten) == s + [x]
  {
    if |s| > 0 {
      assert Compare(AsWritten, s[|s| - 1], x) == 0 by {
        CompareAsWrittenIsZero(s[|s| - 1], x);
      }
    }
  }

  /** No fix of `s` starts after `y`. */
  predicate NoneAfter(s: seq<AutoFix>, y: AutoFix)
    requires AllHaveFirstEdit(s) && HasFirstEdit(y)
  {
    forall k :: 0 <= k < |s| ==> !StartBefore(y, s[k])
  }

  lemma SortedAppend(s: seq<AutoFix>, y: AutoFix)
    requires AllHaveFirstEdit(s) && HasFirstEdit(y) && SortedByStart(s) && NoneAfter(s, y)
    ensures AllHaveFirstEdit(s + [y]) && SortedByStart(s + [y])
  {
    var t := s + [y];
    assert forall k :: 0 <= k < |s| ==> t[k] == s[k];
  }

  lemma NoneAfterParts(s: seq<AutoFix>, y: AutoFix)
    requires AllHaveFirstEdit(s) && |s| > 0 && HasFirstEdit(y) && NoneAfter(s, y)
    ensures AllHaveFirstEdit(s[..|s| - 1]) && NoneAfter(s[..|s| - 1], y) && !StartBefore(y, s[|s| - 1])
  {
    FirstEditParts(s);
    var init := s[..|s| - 1];
    forall k | 0 <= k < |init| ensures !StartBefore(y, init[k]) {
      assert init[k] == s[k];
    }
  }

  lemma NoneAfterSnoc(s: seq<AutoFix>, z: AutoFix, y: AutoFix)
    requires AllHaveFirstEdit(s) && HasFirstEdit(z) && HasFirstEdit(y) && NoneAfter(s, y) && !StartBefore(y, z)
    ensures AllHaveFirstEdit(s + [z]) && NoneAfter(s + [z], y)
  {
    FirstEditSnoc(s, z);
    forall k | 0 <= k < |s| + 1 ensures !StartBefore(y, (s + [z])[k]) {
      if k < |s| {
        assert (s + [z])[k] == s[k];
      }
    }
  }

  /** The front of a sorted sequence is sorted, and nothing in it starts after its last fix. */
  lemma SortedParts(s: seq<AutoFix>)
    requires AllHaveFirstEdit(s) && |s| > 0 && SortedByStart(s)
    ensures AllHaveFirstEdit(s[..|s| - 1]) && SortedByStart(s[..|s| - 1]) && NoneAfter(s[..|s| - 1], s[|s| - 1])
  {
    FirstEditParts(s);
    var init := s[..|s| - 1];
    forall i, j | 0 <= i < j < |init| ensures !StartBefore(init[j], init[i]) {
      assert init[i] == s[i] && init[j] == s[j];
    }
    forall k | 0 <= k < |init| ensures !StartBefore(s[|s| - 1], init[k]) {
      assert init[k] == s[k];
    }
  }

  lemma {:induction false} InsertNoneAfter(sorted: seq<AutoFix>, x: AutoFix, y: AutoFix)
    requires AllHaveFirstEdit(sorted) && HasFirstEdit(x) && HasFirstEdit(y)
    requires NoneAfter(sorted, y) && !StartBefore(y, x)
    ensures NoneAfter(Insert(sorted, x, ByStart), y)
    decreases |sorted|
  {
    if |sorted| > 0 {
      var init, last := sorted[..|sorted| - 1], sorted[|sorted| - 1];
      FirstEditParts(sorted);
      NoneAfterParts(sorted, y);
      if CompareStart(last, x) > 0 {
        InsertNoneAfter(init, x, y);
        var r0 := Insert(init, x, ByStart);
        assert Insert(sorted, x, ByStart) == r0 + [last];
        NoneAfterSnoc(r0, last, y);
      } else {
        assert Insert(sorted, x, ByStart) == sorted + [x];
        NoneAfterSnoc(sorted, x, y);
      }
    }
  }

  lemma {:induction false} InsertSorted(sorted: seq<AutoFix>, x: AutoFix)
    requires AllHaveFirstEdit(sorted) && HasFirstEdit(x) && SortedByStart(sorted)
    ensures SortedByStart(Insert(sorted, x, ByStart))
    decreases |sorted|
  {
    if |sorted| > 0 {
      var init, last := sorted[..|sorted| - 1], sorted[|sorted| - 1];
      SortedParts(sorted);
      if CompareStart(last, x) > 0 {
        var r0 := Insert(init, x, ByStart);
        assert SortedByStart(r0) by {
          InsertSorted(init, x);
        }
        assert NoneAfter(r0, last) by {
          InsertNoneAfter(init, x, last);
        }
        SortedAppend(r0, last);
        assert Insert(sorted, x, ByStart) == r0 + [last];
      } else {
        assert NoneAfter(sorted, x) by {
          forall k | 0 <= k < |sorted| ensures !StartBefore(x, sorted[k]) {
            if k < |sorted| - 1 {
              assert !StartBefore(last, sorted[k]);
            }
          }
        }
        SortedAppend(sorted, x);
        assert Insert(sorted, x, ByStart) == sorted + [x];
      }
    }
  }

  /** The intended `sortFixes` orders the fixes by the start of their first edit and keeps every fix. */
  lemma {:induction false} SortFixesSorted(fixes: seq<AutoFix>)
    requires AllHaveFirstEdit(fixes)
    ensures SortedByStart(SortFixes(fixes)) && multiset(SortFixes(fixes)) == multiset(fixes)
  {
    if |fixes| > 0 {
      SortFixesSorted(fixes[..|fixes| - 1]);
      InsertSorted(SortFixes(fixes[..|fixes| - 1]), fixes[|fixes| - 1]);
    }
  }

  // Greedy selection

  /**
   * The loop of `getAllNonOverlappingFixes` after the first `n` fixes: the
   * fixes kept so far and whether one was skipped.
   */
  function Select(fixes: seq<AutoFix>, n: nat): (r: (seq<AutoFix>, bool))
    requires n <= |fixes|
  {
    if n == 0 then ([], false)
    else
      var (kept, skipped) := Select(fixes, n - 1);
      if !Overlaps(GetLastEdit(kept), fixes[n - 1]) then (kept + [fixes[n - 1]], skipped)
      else (kept, true)
  }

  /** `a` is `b` with some elements left out. */
  predicate Subsequence<T(==)>(a: seq<T>, b: seq<T>)
    decreases |b|
  {
    if |a| == 0 then true
    else if |b| == 0 then false
    else (a[|a| - 1] == b[|b| - 1] && Subsequence(a[..|a| - 1], b[..|b| - 1])) || Subsequence(a, b[..|b| - 1])
  }

  /** No kept fix overlaps the one kept before it. */
  predicate Chained(kept: seq<AutoFix>) {
    forall k :: 0 < k < |kept| ==> !Overlaps(Some(kept[k - 1]), kept[k])
  }

  /**
   * The selection keeps its input in order with some fixes left out, each kept
   * fix clear of the one kept before it, the first fix always kept, and the
   * flag set exactly when a fix was left out.
   */
  lemma SelectProperties(fixes: seq<AutoFix>, n: nat)
    requires n <= |fixes|
    ensures var (kept, skipped) := Select(fixes, n);
      Subsequence(kept, fixes[..n]) && Chained(kept)
      && (skipped <==> |kept| < n)
      && (n > 0 ==> |kept| > 0 && kept[0] == fixes[0])
  {
    SelectSubsequence(fixes, n);
    SelectChained(fixes, n);
    SelectFlagAndFirst(fixes, n);
  }

  lemma {:induction false} SelectSubsequence(fixes: seq<AutoFix>, n: nat)
    requires n <= |fixes|
    ensures Subsequence(Select(fixes, n).0, fixes[..n])
  {
    if n > 0 {
      SelectSubsequence(fixes, n - 1);
      var kept := Select(fixes, n - 1).0;
      var prefix := fixes[..n];
      assert prefix[..n - 1] == fixes[..n - 1] && prefix[n - 1] == fixes[n - 1];
      if !Overlaps(GetLastEdit(kept), fixes[n - 1]) {
        assert Select(fixes, n).0 == kept + [fixes[n - 1]];
        SubsequenceBothGrow(kept, prefix);
      } else {
        assert Select(fixes, n).0 == kept;
        SubsequenceGrows(kept, prefix);
      }
    }
  }

  /** Adding the same last element to both keeps a subsequence one. */
  lemma SubsequenceBothGrow(a: seq<AutoFix>, b: seq<AutoFix>)
    requires |b| > 0 && Subsequence(a, b[..|b| - 1])
    ensures Subsequence(a + [b[|b| - 1]], b)
  {
    var a2 := a + [b[|b| - 1]];
    assert a2[..|a2| - 1] == a && a2[|a2| - 1] == b[|b| - 1];
  }

  /** A subsequence of the front is one of the whole. */
  lemma SubsequenceGrows(a: seq<AutoFix>, b: seq<AutoFix>)
    requires |b| > 0 && Subsequence(a, b[..|b| - 1])
    ensures Subsequence(a, b)
  {
  }

  lemma {:induction false} SelectChained(fixes: seq<AutoFix>, n: nat)
    requires n <= |fixes|
    ensures Chained(Select(fixes, n).0)
  {
    if n > 0 {
      SelectChained(fixes, n - 1);
      var kept := Select(fixes, n - 1).0;
      if !Overlaps(GetLastEdit(kept), fixes[n - 1]) {
        assert Select(fixes, n).0 == kept + [fixes[n - 1]];
        ChainedSnoc(kept, fixes[n - 1]);
      } else {
        assert Select(fixes, n).0 == kept;
      }
    }
  }

  /** A fix clear of the last one kept extends the chain. */
  lemma ChainedSnoc(kept: seq<AutoFix>, x: AutoFix)
    requires Chained(kept) && !Overlaps(GetLastEdit(kept), x)
    ensures Chained(kept + [x])
  {
    var k2 := kept + [x];
    forall k | 0 < k < |k2| ensures !Overlaps(Some(k2[k - 1]), k2[k]) {
      assert k2[k - 1] == kept[k - 1];
      if k < |kept| {
        assert k2[k] == kept[k];
      } else {
        assert k2[k] == x;
      }
    }
  }

  lemma {:induction false} SelectFlagAndFirst(fixes: seq<AutoFix>, n: nat)
    requires n <= |fixes|
    ensures var (kept, skipped) := Select(fixes, n);
      |kept| <= n && (skipped <==> |kept| < n) && (n > 0 ==> |kept| > 0 && kept[0] == fixes[0])
  {
    if n > 0 {
      SelectFlagAndFirst(fixes, n - 1);
    }
  }

  /** Without overlaps at all, every fix is kept and nothing is reported. */
  lemma {:induction false} SelectKeepsAllClear(fixes: seq<AutoFix>, n: nat)
    requires n <= |fixes|
    requires forall k :: 0 < k < |fixes| ==> !Overlaps(Some(fixes[k - 1]), fixes[k])
    ensures Select(fixes, n) == (fixes[..n], false)
  {
    if n > 0 {
      SelectKeepsAllClear(fixes, n - 1);
      TakeOneMore(fixes, n - 1);
      if n > 1 {
        assert GetLastEdit(fixes[..n - 1]) == Some(fixes[n - 2]);
      }
    }
  }

  /**
   * `getAllNonOverlappingFixes`: "sort", then keep each fix clear of the last
   * one kept. The sort as written leaves the fixes in the order they came in
   * (`SortFixesAsWrittenKeepsOrder`), so the selection runs over `fixes`
   * itself: the first fix is always kept, the kept fixes are the input with
   * some left out, each clear of the one kept before it, and the flag says
   * whether any was left out.
   */
  method GetAllNonOverlappingFixes(fixes: seq<AutoFix>) returns (nonOverlapping: seq<AutoFix>, hasOverlappingFixes: bool)
    requires AllHaveFirstEdit(fixes)
    ensures (nonOverlapping, hasOverlappingFixes) == Select(fixes, |fixes|)
    ensures Subsequence(nonOverlapping, fixes) && Chained(nonOverlapping)
    ensures |fixes| > 0 ==> |nonOverlapping| > 0 && nonOverlapping[0] == fixes[0]
    ensures hasOverlappingFixes <==> |nonOverlapping| < |fixes|
  {
    var sorted := SortFixesAsWritten(fixes);
    nonOverlapping, hasOverlappingFixes := SelectLoop(sorted);
    SortFixesAsWrittenKeepsOrder(fixes);
    SelectAll(fixes);
  }

  /** The `for..of` loop of `getAllNonOverlappingFixes` over the fixes it was given. */
  method SelectLoop(sorted: seq<AutoFix>) returns (nonOverlapping: seq<AutoFix>, hasOverlappingFixes: bool)
    ensures (nonOverlapping, hasOverlappingFixes) == Select(sorted, |sorted|)
  {
    nonOverlapping, hasOverlappingFixes := [], false;
    var i := 0;
    while i < |sorted|
      invariant i <= |sorted|
      invariant (nonOverlapping, hasOverlappingFixes) == Select(sorted, i)
    {
      if !Overlaps(GetLastEdit(nonOverlapping), sorted[i]) {
        nonOverlapping := nonOverlapping + [sorted[i]];
      } else {
        hasOverlappingFixes := true;
      }
      i := i + 1;
    }
  }

  /**
   * What the selection would keep over the fixes sorted as evidently intended:
   * the kept fixes in order of their first edit's start, each clear of the one
   * before it.
   */
  lemma NonOverlappingSelection(fixes: seq<AutoFix>)
    requires AllHaveFirstEdit(fixes)
    ensures var r := Select(SortFixes(fixes), |fixes|);
      AllHaveFirstEdit(r.0) && SortedByStart(r.0) && Chained(r.0) && (r.1 <==> |r.0| < |fixes|)
  {
    var sorted := SortFixes(fixes);
    SelectAll(sorted);
    SortFixesSorted(fixes);
    SubsequenceSorted(Select(sorted, |sorted|).0, sorted);
  }

  /** The selection over all of `fixes`. */
  lemma SelectAll(fixes: seq<AutoFix>)
    ensures var r := Select(fixes, |fixes|);
      Subsequence(r.0, fixes) && Chained(r.0) && (r.1 <==> |r.0| < |fixes|)
      && (|fixes| > 0 ==> |r.0| > 0 && r.0[0] == fixes[0])
  {
    SelectProperties(fixes, |fixes|);
    assert fixes[..|fixes|] == fixes;
  }

  lemma {:induction false} SubsequenceSorted(a: seq<AutoFix>, b: seq<AutoFix>)
    requires AllHaveFirstEdit(b) && SortedByStart(b) && Subsequence(a, b)
    ensures AllHaveFirstEdit(a) && SortedByStart(a)
    ensures forall k :: 0 <= k < |a| ==> a[k] in b
    decreases |b|
  {
    if |a| > 0 {
      var bi := b[..|b| - 1];
      SortedParts(b);
      forall m | 0 <= m < |bi| ensures bi[m] in b {
        assert bi[m] == b[m];
      }
      if a[|a| - 1] == b[|b| - 1] && Subsequence(a[..|a| - 1], bi) {
        var ai := a[..|a| - 1];
        SubsequenceSorted(ai, bi);
        assert a == ai + [b[|b| - 1]];
        forall k | 0 <= k < |ai| ensures !StartBefore(b[|b| - 1], ai[k]) {
          var m :| 0 <= m < |bi| && bi[m] == ai[k];
          assert b[m] == ai[k];
        }
      } else {
        SubsequenceSorted(a, bi);
      }
    }
  }

  /** A fix on the first line and one on the third. */
  const EarlyFix: AutoFix := AutoFix("Fix: a", 1, [Edit(Position(0, 0), Position(0, 1), Some("x"))])
  const LateFix: AutoFix := AutoFix("Fix: b", 1, [Edit(Position(2, 0), Position(2, 1), Some("y"))])

  /**
   * Two fixes on separate lines given last-first: as written the fix on the
   * later line is kept and the other one is dropped as overlapping, while
   * sorted first both are kept.
   */
  lemma UnsortedFixesDropped()
    ensures Select(SortFixesAsWritten([LateFix, EarlyFix]), 2) == ([LateFix], true)
    ensures Select(SortFixes([LateFix, EarlyFix]), 2) == ([EarlyFix, LateFix], false)
  {
    SortFixesAsWrittenKeepsOrder([LateFix, EarlyFix]);
    PairSorted();
    PairOverlaps();
    SelectPair(LateFix, EarlyFix);
    SelectPair(EarlyFix, LateFix);
  }

  lemma PairSorted()
    ensures SortFixes([LateFix, EarlyFix]) == [EarlyFix, LateFix]
  {
    var given := [LateFix, EarlyFix];
    assert given[..1] == [LateFix] && [LateFix][..0] == [];
    assert SortFixes([LateFix]) == [LateFix];
    assert CompareStart(LateFix, EarlyFix) > 0;
    assert Insert([LateFix], EarlyFix, ByStart) == Insert([], EarlyFix, ByStart) + [LateFix];
  }

  lemma PairOverlaps()
    ensures !Overlaps(Some(EarlyFix), LateFix) && Overlaps(Some(LateFix), EarlyFix)
  {
    assert EditOverlaps(LateFix.edits[0], EarlyFix.edits[0]);
  }

  /** Of two fixes the second is kept exactly when it is clear of the first. */
  lemma SelectPair(a: AutoFix, b: AutoFix)
    ensures Select([a, b], 2) == if Overlaps(Some(a), b) then ([a], true) else ([a, b], false)
  {
    assert GetLastEdit<AutoFix>([]) == None && !Overlaps(None, a);
    assert Select([a, b], 0) == ([], false);
    assert [a, b][0] == a && [] + [a] == [a];
    assert Select([a, b], 1) == ([a], false);
    assert GetLastEdit([a]) == Some(a);
    assert [a] + [b] == [a, b];
  }

  // Text edits

  datatype TextEdit = TextEdit(range: Range, newText: String)

  /** `each.text || ''`. */
  function TextOrEmpty(t: Option<String>): (s: String)
    ensures t.Some? ==> s == t.value
    ensures t.None? ==> s == []
  {
    match t
    case None => []
    case Some(s) => s
  }

  function ToTextEdit(e: Edit): TextEdit {
    TextEdit(Range(e.start, e.end), TextOrEmpty(e.text))
  }

  /** `createTextEdit`: one replace edit per auto-fix edit, in order. */
  function CreateTextEdit(autoFix: AutoFix): (r: seq<TextEdit>)
    ensures |r| == |autoFix.edits|
    ensures forall k :: 0 <= k < |r| ==>
      r[k].range == Range(autoFix.edits[k].start, autoFix.edits[k].end)
      && r[k].newText == TextOrEmpty(autoFix.edits[k].text)
  {
    seq(|autoFix.edits|, k requires 0 <= k < |autoFix.edits| => ToTextEdit(autoFix.edits[k]))
  }

  /** The text edits of `fixes`, one fix after the other. */
  function AllTextEdits(fixes: seq<AutoFix>): seq<TextEdit>
  {
    if |fixes| == 0 then [] else AllTextEdits(fixes[..|fixes| - 1]) + CreateTextEdit(fixes[|fixes| - 1])
  }

  function EditCount(fixes: seq<AutoFix>): nat
  {
    if |fixes| == 0 then 0 else EditCount(fixes[..|fixes| - 1]) + |fixes[|fixes| - 1].edits|
  }

  lemma {:induction false} AllTextEditsAppend(a: seq<AutoFix>, b: seq<AutoFix>)
    ensures AllTextEdits(a + b) == AllTextEdits(a) + AllTextEdits(b)
    decreases |b|
  {
    if |b| == 0 {
      assert a + b == a;
    } else {
      var bi, x := b[..|b| - 1], b[|b| - 1];
      AppendParts(a, b);
      AllTextEditsAppend(a, bi);
      SeqAssoc(AllTextEdits(a), AllTextEdits(bi), CreateTextEdit(x));
    }
  }

  lemma {:induction false} EditCountAppend(a: seq<AutoFix>, b: seq<AutoFix>)
    ensures EditCount(a + b) == EditCount(a) + EditCount(b)
    decreases |b|
  {
    if |b| == 0 {
      assert a + b == a;
    } else {
      AppendParts(a, b);
      EditCountAppend(a, b[..|b| - 1]);
    }
  }

  /** Every fix contributes each of its edits, so the result has as many edits as the fixes together. */
  lemma {:induction false} AllTextEditsCount(fixes: seq<AutoFix>)
    ensures |AllTextEdits(fixes)| == EditCount(fixes)
  {
    if |fixes| > 0 {
      AllTextEditsCount(fixes[..|fixes| - 1]);
    }
  }

  /** `concatenateEdits`. */
  method ConcatenateEdits(fixes: seq<AutoFix>) returns (textEdits: seq<TextEdit>)
    ensures textEdits == AllTextEdits(fixes)
    ensures |textEdits| == EditCount(fixes)
  {
    textEdits := [];
    var i := 0;
    while i < |fixes|
      invariant i <= |fixes|
      invariant textEdits == AllTextEdits(fixes[..i])
    {
      assert fixes[..i + 1][..i] == fixes[..i];
      textEdits := textEdits + CreateTextEdit(fixes[i]);
      i := i + 1;
    }
    assert fixes[..i] == fixes;
    AllTextEditsCount(fixes);
  }
}
