/**
 * Code-lens construction of the C# extension, version 1.17.1: which
 * references and test lenses each element of the code structure gets.
 */
module CodeLens {
  import opened Wrappers
  import opened JsString
  import opened JsValue
  import opened Protocol

  /** An editor range, 0-based. */
  datatype EditorRange = EditorRange(startLine: int, startCharacter: int, endLine: int, endCharacter: int)

  /** The `OmniSharpCodeLens` constructor's conversion of a 1-based server range. */
  function ToEditorRange(r: Range): (e: EditorRange)
    ensures e.startLine == r.start.line - 1 && e.startCharacter == r.start.column - 1
    ensures e.endLine == r.end.line - 1 && e.endCharacter == r.end.column - 1
  {
    EditorRange(r.start.line - 1, r.start.column - 1, r.end.line - 1, r.end.column - 1)
  }

  /** A references lens, or a run (`debug` false) or debug test lens. */
  datatype Lens =
    | ReferencesLens(range: EditorRange, fileName: String)
    | TestLens(debug: bool, range: EditorRange, fileName: String, displayName: String,
               isTestContainer: bool, testFramework: Option<String>, testMethodNames: seq<Option<String>>)

  datatype LensOptions = LensOptions(showReferencesCodeLens: bool, showTestsCodeLens: bool)

  /** A test container whose `Name` range is missing makes the lens constructor throw. */
  const MissingRangeError: String := "TypeError: Cannot read property 'Start' of undefined"

  const FilteredSymbolNames: set<String> := {"Equals", "Finalize", "GetHashCode", "ToString"}

  /** `isValidElementForReferencesCodeLens` as written: the name lookup also finds `Object.prototype` members. */
  predicate IsValidElementForReferencesAsWritten(e: CodeElement) {
    e.kind != "namespace" && !(e.kind == "method" && LookupTruthy(FilteredSymbolNames, e.name))
  }

  /** `isValidElementForReferencesCodeLens` as intended: only the four listed method names are filtered. */
  function IsValidElementForReferences(e: CodeElement): (r: bool)
    ensures r <==> e.kind != "namespace" &&
                   !(e.kind == "method" && (e.name == "Equals" || e.name == "Finalize" || e.name == "GetHashCode" || e.name == "ToString"))
  {
    e.kind != "namespace" && !(e.kind == "method" && e.name in FilteredSymbolNames)
  }

  /** A C# method named `toString` loses its references lens as written, and keeps it as intended. */
  lemma PrototypeNameHidesReferences(e: CodeElement)
    requires e.kind == "method" && e.name == "toString"
    ensures !IsValidElementForReferencesAsWritten(e)
    ensures IsValidElementForReferences(e)
  {
  }

  /** The two agree on every name that is not an `Object.prototype` member. */
  lemma ReferencesFilterAgrees(e: CodeElement)
    requires e.name !in ObjectPrototypeNames
    ensures IsValidElementForReferencesAsWritten(e) == IsValidElementForReferences(e)
  {
  }

  /** A property of the element: `None` when `Properties` or the key is missing. */
  function Property(e: CodeElement, key: String): Option<String> {
    if e.properties.Some? && key in e.properties.value then Some(e.properties.value[key]) else None
  }

  predicate TruthyText(o: Option<String>) {
    o.Some? && o.value != []
  }

  /** `getTestFrameworkAndMethodName`. */
  function GetTestFrameworkAndMethodName(e: CodeElement): (r: (Option<String>, Option<String>))
    ensures e.properties.None? ==> r == (None, None)
    ensures r.0 == Property(e, "testFramework") && r.1 == Property(e, "testMethodName")
  {
    if e.properties.None? then (None, None)
    else (Property(e, "testFramework"), Property(e, "testMethodName"))
  }

  /** `isValidMethodForTestCodeLens`. */
  predicate IsValidMethodForTest(e: CodeElement) {
    e.kind == "method" && e.properties.Some? &&
    TruthyText(Property(e, "testFramework")) && TruthyText(Property(e, "testMethodName"))
  }

  /** `isValidClassForTestCodeLens`. */
  function IsValidClassForTest(e: CodeElement): (r: bool)
    ensures r <==> e.kind == "class" && exists k :: 0 <= k < |e.children| && IsValidMethodForTest(e.children[k])
  {
    e.kind == "class" && Find(e.children, IsValidMethodForTest).Some?
  }

  /** The framework of the first child that has one. */
  function FirstFramework(children: seq<CodeElement>): Option<String> {
    if children == [] then None
    else if TruthyText(Property(children[0], "testFramework")) then Property(children[0], "testFramework")
    else FirstFramework(children[1..])
  }

  /** The method names of the children whose framework is `framework`, in child order. */
  function NamesWith(children: seq<CodeElement>, framework: String): seq<Option<String>> {
    if children == [] then []
    else (if Property(children[0], "testFramework") == Some(framework) then [Property(children[0], "testMethodName")] else [])
         + NamesWith(children[1..], framework)
  }

  lemma {:induction false} FirstFrameworkAppend(cs: seq<CodeElement>, c: CodeElement)
    ensures FirstFramework(cs + [c]) ==
      if FirstFramework(cs).Some? then FirstFramework(cs)
      else if TruthyText(Property(c, "testFramework")) then Property(c, "testFramework") else None
  {
    if cs == [] {
      assert [] + [c] == [c];
    } else {
      assert (cs + [c])[0] == cs[0] && (cs + [c])[1..] == cs[1..] + [c];
      FirstFrameworkAppend(cs[1..], c);
    }
  }

  lemma {:induction false} NamesWithAppend(cs: seq<CodeElement>, c: CodeElement, f: String)
    ensures NamesWith(cs + [c], f) ==
      NamesWith(cs, f) + (if Property(c, "testFramework") == Some(f) then [Property(c, "testMethodName")] else [])
  {
    if cs == [] {
      assert [] + [c] == [c];
    } else {
      assert (cs + [c])[0] == cs[0] && (cs + [c])[1..] == cs[1..] + [c];
      NamesWithAppend(cs[1..], c, f);
    }
  }

  /** Before the first framework no child has a truthy framework, so none matches one. */
  lemma {:induction false} NoNamesBeforeFirst(cs: seq<CodeElement>, f: String)
    requires FirstFramework(cs).None? && f != []
    ensures NamesWith(cs, f) == []
  {
    if cs != [] {
      NoNamesBeforeFirst(cs[1..], f);
    }
  }

  /** A valid test class has a framework, and at least the first test method is listed. */
  lemma {:induction false} ValidClassHasTests(children: seq<CodeElement>)
    requires exists k :: 0 <= k < |children| && IsValidMethodForTest(children[k])
    ensures FirstFramework(children).Some? && NamesWith(children, FirstFramework(children).value) != []
  {
    var k :| 0 <= k < |children| && IsValidMethodForTest(children[k]);
    if !TruthyText(Property(children[0], "testFramework")) {
      assert k > 0 && children[1..][k - 1] == children[k];
      ValidClassHasTests(children[1..]);
    }
  }

  /** The class loop of `createCodeLensesForElement`: the first framework wins. */
  method CollectClassTests(children: seq<CodeElement>) returns (testFramework: Option<String>, testMethodNames: seq<Option<String>>)
    ensures testFramework == FirstFramework(children)
    ensures testFramework.Some? ==> testMethodNames == NamesWith(children, testFramework.value)
    ensures testFramework.None? ==> testMethodNames == []
  {
    testFramework := None;
    testMethodNames := [];
    var i := 0;
    while i < |children|
      invariant 0 <= i <= |children|
      invariant testFramework == FirstFramework(children[..i])
      invariant testFramework.Some? ==> testFramework.value != [] && testMethodNames == NamesWith(children[..i], testFramework.value)
      invariant testFramework.None? ==> testMethodNames == []
    {
      var child := children[i];
      assert children[..i + 1] == children[..i] + [child];
      FirstFrameworkAppend(children[..i], child);
      var (childTestFramework, childTestMethodName) := GetTestFrameworkAndMethodName(child);
      if !TruthyText(testFramework) && TruthyText(childTestFramework) {
        NoNamesBeforeFirst(children[..i], childTestFramework.value);
        NamesWithAppend(children[..i], child, childTestFramework.value);
        testFramework := childTestFramework;
        testMethodNames := testMethodNames + [childTestMethodName];
      } else if TruthyText(testFramework) && childTestFramework == testFramework {
        NamesWithAppend(children[..i], child, testFramework.value);
        testMethodNames := testMethodNames + [childTestMethodName];
      } else if testFramework.Some? {
        NamesWithAppend(children[..i], child, testFramework.value);
      }
      i := i + 1;
    }
    assert children[..i] == children;
  }

  /**
   * The references part of an element's lenses, with the filter as written:
   * a method named after an `Object.prototype` member gets none.
   */
  function ReferencesPart(e: CodeElement, fileName: String, options: LensOptions): seq<Lens> {
    if options.showReferencesCodeLens && IsValidElementForReferencesAsWritten(e) && "name" in e.ranges then
      [ReferencesLens(ToEditorRange(e.ranges["name"]), fileName)]
    else []
  }

  /** The run lens followed by the debug lens. */
  function RunAndDebug(range: EditorRange, fileName: String, displayName: String, isTestContainer: bool,
                       testFramework: Option<String>, names: seq<Option<String>>): seq<Lens> {
    [TestLens(false, range, fileName, displayName, isTestContainer, testFramework, names),
     TestLens(true, range, fileName, displayName, isTestContainer, testFramework, names)]
  }

  /** The test part of an element's lenses. */
  function TestPart(e: CodeElement, fileName: String, options: LensOptions): Result<seq<Lens>, String> {
    if !options.showTestsCodeLens then Ok([])
    else if IsValidMethodForTest(e) then
      var names := GetTestFrameworkAndMethodName(e);
      if "name" in e.ranges && TruthyText(names.0) && TruthyText(names.1) then
        Ok(RunAndDebug(ToEditorRange(e.ranges["name"]), fileName, e.displayName, false, names.0, [names.1]))
      else Ok([])
    else if IsValidClassForTest(e) then
      if "name" !in e.ranges then Err(MissingRangeError)
      else
        var framework := FirstFramework(e.children);
        var names := if framework.Some? then NamesWith(e.children, framework.value) else [];
        Ok(RunAndDebug(ToEditorRange(e.ranges["name"]), fileName, e.displayName, true, framework, names))
    else Ok([])
  }

  /** The lenses of one element: its references lens, then its test lenses. */
  function ElementLenses(e: CodeElement, fileName: String, options: LensOptions): Result<seq<Lens>, String> {
    var tests := TestPart(e, fileName, options);
    if tests.Err? then Err(tests.error) else Ok(ReferencesPart(e, fileName, options) + tests.value)
  }

  /** `createCodeLensesForElement`. */
  method CreateCodeLensesForElement(e: CodeElement, fileName: String, options: LensOptions) returns (r: Result<seq<Lens>, String>)
    ensures r == ElementLenses(e, fileName, options)
  {
    var results: seq<Lens> := [];
    if options.showReferencesCodeLens && IsValidElementForReferencesAsWritten(e) {
      if "name" in e.ranges {
        results := results + [ReferencesLens(ToEditorRange(e.ranges["name"]), fileName)];
      }
    }
    if options.showTestsCodeLens {
      if IsValidMethodForTest(e) {
        var (testFramework, testMethodName) := GetTestFrameworkAndMethodName(e);
        if "name" in e.ranges && TruthyText(testFramework) && TruthyText(testMethodName) {
          var range := ToEditorRange(e.ranges["name"]);
          results := results + [TestLens(false, range, fileName, e.displayName, false, testFramework, [testMethodName])];
          results := results + [TestLens(true, range, fileName, e.displayName, false, testFramework, [testMethodName])];
          assert results == ReferencesPart(e, fileName, options) + RunAndDebug(range, fileName, e.displayName, false, testFramework, [testMethodName]);
        } else {
          assert results == ReferencesPart(e, fileName, options) + [];
        }
      } else if IsValidClassForTest(e) {
        var testFramework, testMethodNames := CollectClassTests(e.children);
        if "name" !in e.ranges {
          return Err(MissingRangeError);
        }
        var range := ToEditorRange(e.ranges["name"]);
        results := results + [TestLens(false, range, fileName, e.displayName, true, testFramework, testMethodNames)];
        results := results + [TestLens(true, range, fileName, e.displayName, true, testFramework, testMethodNames)];
        assert results == ReferencesPart(e, fileName, options) + RunAndDebug(range, fileName, e.displayName, true, testFramework, testMethodNames);
      } else {
        assert results == ReferencesPart(e, fileName, options) + [];
      }
    } else {
      assert results == ReferencesPart(e, fileName, options) + [];
    }
    return Ok(results);
  }

  /** The lenses of the visited elements in visiting order; the first failure ends the walk. */
  function LensesOf(visits: seq<(CodeElement, Option<CodeElement>)>, fileName: String, options: LensOptions): Result<seq<Lens>, String> {
    if visits == [] then Ok([])
    else
      var first := ElementLenses(visits[0].0, fileName, options);
      if first.Err? then first
      else
        var rest := LensesOf(visits[1..], fileName, options);
        if rest.Err? then rest else Ok(first.value + rest.value)
  }

  function PrependOk(front: seq<Lens>, r: Result<seq<Lens>, String>): Result<seq<Lens>, String> {
    if r.Ok? then Ok(front + r.value) else r
  }

  lemma LensesOfCons(visits: seq<(CodeElement, Option<CodeElement>)>, fileName: String, options: LensOptions)
    requires visits != []
    ensures LensesOf(visits, fileName, options) ==
      var first := ElementLenses(visits[0].0, fileName, options);
      if first.Err? then first else PrependOk(first.value, LensesOf(visits[1..], fileName, options))
  {
  }

  lemma PrependTwice(a: seq<Lens>, b: seq<Lens>, r: Result<seq<Lens>, String>)
    ensures PrependOk(a, PrependOk(b, r)) == PrependOk(a + b, r)
  {
    if r.Ok? {
      assert a + (b + r.value) == (a + b) + r.value;
    }
  }

  /** `createCodeLenses`: the lenses of every element, in the pre-order of the walk. */
  method CreateCodeLenses(elements: seq<CodeElement>, fileName: String, options: LensOptions) returns (r: Result<seq<Lens>, String>)
    ensures r == LensesOf(Walk(elements, None), fileName, options)
  {
    var visits := Walk(elements, None);
    var results: seq<Lens> := [];
    var i := 0;
    assert visits[0..] == visits;
    PrependTwice([], [], LensesOf(visits, fileName, options));
    assert PrependOk([], LensesOf(visits, fileName, options)) == LensesOf(visits, fileName, options) by {
      var whole := LensesOf(visits, fileName, options);
      if whole.Ok? { assert [] + whole.value == whole.value; }
    }
    while i < |visits|
      invariant 0 <= i <= |visits|
      invariant LensesOf(visits, fileName, options) == PrependOk(results, LensesOf(visits[i..], fileName, options))
    {
      assert visits[i..][0] == visits[i] && visits[i..][1..] == visits[i + 1..];
      LensesOfCons(visits[i..], fileName, options);
      var codeLenses := CreateCodeLensesForElement(visits[i].0, fileName, options);
      if codeLenses.Err? {
        return codeLenses;
      }
      PrependTwice(results, codeLenses.value, LensesOf(visits[i + 1..], fileName, options));
      results := results + codeLenses.value;
      i := i + 1;
    }
    assert results + [] == results;
    return Ok(results);
  }

  /**
   * An element gets a references lens exactly when references lenses are on,
   * it has a name range, it is not a namespace, and it is not a method whose
   * name the filter lookup finds (one of the four listed names or an
   * `Object.prototype` member); the lens covers the name range.
   */
  lemma ReferencesLensExactly(e: CodeElement, fileName: String, options: LensOptions)
    ensures ReferencesPart(e, fileName, options) != [] <==>
      options.showReferencesCodeLens && "name" in e.ranges && e.kind != "namespace" &&
      !(e.kind == "method" && (e.name in FilteredSymbolNames || e.name in ObjectPrototypeNames))
    ensures ReferencesPart(e, fileName, options) != [] ==>
      ReferencesPart(e, fileName, options) == [ReferencesLens(ToEditorRange(e.ranges["name"]), fileName)]
  {
  }

  /** A method named `valueOf` gets no references lens, though it is not one of the four filtered names. */
  lemma PrototypeMethodWithoutReferences(e: CodeElement, fileName: String, options: LensOptions)
    requires e.kind == "method" && e.name == "valueOf"
    ensures e.name !in FilteredSymbolNames
    ensures ReferencesPart(e, fileName, options) == []
  {
  }

  /** With both kinds of lens switched off, no element gets a lens. */
  lemma {:induction false} NoLensesWhenDisabled(visits: seq<(CodeElement, Option<CodeElement>)>, fileName: String, options: LensOptions)
    requires !options.showReferencesCodeLens && !options.showTestsCodeLens
    ensures LensesOf(visits, fileName, options) == Ok([])
  {
    if visits != [] {
      NoLensesWhenDisabled(visits[1..], fileName, options);
      assert TestPart(visits[0].0, fileName, options) == Ok([]);
      assert ReferencesPart(visits[0].0, fileName, options) == [];
      var none: seq<Lens> := [];
      assert none + none == none;
      assert ElementLenses(visits[0].0, fileName, options) == Ok([]);
      LensesOfCons(visits, fileName, options);
    }
  }

  /** A valid test method with a name range gets exactly a run lens and then a debug lens for `[testMethodName]`. */
  lemma TestMethodLenses(e: CodeElement, fileName: String, options: LensOptions)
    requires options.showTestsCodeLens && !options.showReferencesCodeLens
    requires IsValidMethodForTest(e) && "name" in e.ranges
    ensures ElementLenses(e, fileName, options) ==
      Ok([TestLens(false, ToEditorRange(e.ranges["name"]), fileName, e.displayName, false, Property(e, "testFramework"), [Property(e, "testMethodName")]),
          TestLens(true, ToEditorRange(e.ranges["name"]), fileName, e.displayName, false, Property(e, "testFramework"), [Property(e, "testMethodName")])])
  {
    var names := GetTestFrameworkAndMethodName(e);
    assert names == (Property(e, "testFramework"), Property(e, "testMethodName"));
    assert ReferencesPart(e, fileName, options) == [];
    var lenses := RunAndDebug(ToEditorRange(e.ranges["name"]), fileName, e.displayName, false, names.0, [names.1]);
    assert TestPart(e, fileName, options) == Ok(lenses);
    assert [] + lenses == lenses;
  }

  /** A valid test class with a name range gets run and debug container lenses for the first framework's methods. */
  lemma TestClassLenses(e: CodeElement, fileName: String, options: LensOptions)
    requires options.showTestsCodeLens && !options.showReferencesCodeLens
    requires IsValidClassForTest(e) && "name" in e.ranges
    ensures ElementLenses(e, fileName, options).Ok?
    ensures var lenses := ElementLenses(e, fileName, options).value;
            |lenses| == 2 && lenses[0].TestLens? && !lenses[0].debug && lenses[1].TestLens? && lenses[1].debug &&
            lenses[0].isTestContainer && lenses[0].testFramework == FirstFramework(e.children) &&
            lenses[0].testFramework.Some? && lenses[0].testMethodNames == NamesWith(e.children, lenses[0].testFramework.value) &&
            lenses[0].testMethodNames != []
  {
    assert e.kind != "method";
    ValidClassHasTests(e.children);
  }

  /** The references title of the resolved lens. */
  function ReferencesTitle(count: nat): (title: String)
    ensures count == 1 ==> title == "1 reference"
    ensures count != 1 ==> title == NatToString(count) + " references"
  {
    if count == 1 then "1 reference" else NatToString(count) + " references"
  }
}
