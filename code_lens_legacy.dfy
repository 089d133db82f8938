/**
 * Code-lens construction of the C# extension, version 1.15.2, over the older
 * member-tree response: references lenses per node and test lenses from the
 * nodes' test features.
 */
module CodeLensLegacy {
  import opened Wrappers
  import opened JsString
  import opened JsValue

  /** A node's 1-based location; `text` is the member name. */
  datatype Location = Location(text: String, line: int, column: int, endLine: int, endColumn: int)

  datatype Feature = Feature(name: String, data: String)

  /** A member-tree node; `features` is `None` for servers that do not report them. */
  datatype Node = Node(kind: String, location: Location, childNodes: seq<Node>, features: Option<seq<Feature>>)

  /** A 0-based editor range. */
  datatype EditorRange = EditorRange(startLine: int, startCharacter: int, endLine: int, endCharacter: int)

  /** `toRange`: each coordinate of the 1-based location becomes 0-based. */
  function ToRange(l: Location): (r: EditorRange)
    ensures r.startLine == l.line - 1 && r.startCharacter == l.column - 1
    ensures r.endLine == l.endLine - 1 && r.endCharacter == l.endColumn - 1
  {
    EditorRange(l.line - 1, l.column - 1, l.endLine - 1, l.endColumn - 1)
  }

  /**
   * A references lens (resolved later), or a lens with a fixed command whose
   * arguments are the test data, the file name and the framework name.
   */
  datatype Lens =
    | ReferencesLens(fileName: String, range: EditorRange)
    | CommandLens(range: EditorRange, title: String, command: String, testData: seq<String>, fileName: String, framework: Option<String>)

  datatype LensOptions = LensOptions(showReferencesCodeLens: bool, showTestsCodeLens: bool)

  const FilteredSymbolNames: set<String> := {"Equals", "Finalize", "GetHashCode", "ToString"}

  /** The filter of `_convertQuickFix` as written: the lookup also finds `Object.prototype` members. */
  predicate IsFilteredMethodAsWritten(node: Node) {
    node.kind == "MethodDeclaration" && LookupTruthy(FilteredSymbolNames, node.location.text)
  }

  /** The filter as intended: methods named Equals, Finalize, GetHashCode or ToString. */
  function IsFilteredMethod(node: Node): (r: bool)
    ensures r <==> (node.kind == "MethodDeclaration" &&
                    (node.location.text == "Equals" || node.location.text == "Finalize" ||
                     node.location.text == "GetHashCode" || node.location.text == "ToString"))
  {
    node.kind == "MethodDeclaration" && node.location.text in FilteredSymbolNames
  }

  /** A method named `valueOf` is dropped, with its children, as written, and kept as intended. */
  lemma PrototypeNameHidesNode(node: Node)
    requires node.kind == "MethodDeclaration" && node.location.text == "valueOf"
    ensures IsFilteredMethodAsWritten(node) && !IsFilteredMethod(node)
  {
  }

  predicate IsTestFeature(f: Feature) {
    f.name == "XunitTestMethod" || f.name == "NUnitTestMethod" || f.name == "MSTestMethod"
  }

  /** The framework of a test feature: xunit unless it is an NUnit or MSTest feature. */
  function FrameworkOf(f: Feature): (r: String)
    ensures f.name == "NUnitTestMethod" ==> r == "nunit"
    ensures f.name == "MSTestMethod" ==> r == "mstest"
    ensures f.name != "NUnitTestMethod" && f.name != "MSTestMethod" ==> r == "xunit"
  {
    if f.name == "NUnitTestMethod" then "nunit" else if f.name == "MSTestMethod" then "mstest" else "xunit"
  }

  /** The first test feature of a feature list. */
  function FirstTestFeature(features: seq<Feature>): (r: Option<Feature>)
    ensures r.None? <==> forall k :: 0 <= k < |features| ==> !IsTestFeature(features[k])
    ensures r.Some? ==> IsTestFeature(r.value)
    ensures r.Some? ==> exists i :: 0 <= i < |features| && features[i] == r.value && (forall k :: 0 <= k < i ==> !IsTestFeature(features[k]))
  {
    if features == [] then None
    else if IsTestFeature(features[0]) then Some(features[0])
    else
      var r := FirstTestFeature(features[1..]);
      assert forall k :: 1 <= k < |features| ==> features[k] == features[1..][k - 1];
      if r.Some? then
        ghost var i :| 0 <= i < |features[1..]| && features[1..][i] == r.value && forall k :: 0 <= k < i ==> !IsTestFeature(features[1..][k]);
        assert features[i + 1] == r.value;
        r
      else r
  }

  /** `_getTestFeatureAndFramework`: the first test feature and its framework, or `[null, null]`. */
  function GetTestFeatureAndFramework(node: Node): (r: (Option<Feature>, Option<String>))
    ensures r.0.None? <==> r.1.None?
    ensures r.0.Some? ==> IsTestFeature(r.0.value) && r.1 == Some(FrameworkOf(r.0.value))
    ensures node.features.Some? ==> r.0 == FirstTestFeature(node.features.value)
  {
    if node.features.None? then (None, None)
    else
      var f := FirstTestFeature(node.features.value);
      if f.Some? then (f, Some(FrameworkOf(f.value))) else (None, None)
  }

  /** The test data of the children with a test feature, in child order. */
  function TestData(children: seq<Node>): seq<String> {
    if children == [] then []
    else
      var (f, _) := GetTestFeatureAndFramework(children[0]);
      (if f.Some? then [f.value.data] else []) + TestData(children[1..])
  }

  /** The framework of the first child with a test feature. */
  function FirstFrameworkName(children: seq<Node>): Option<String> {
    if children == [] then None
    else
      var (f, name) := GetTestFeatureAndFramework(children[0]);
      if f.Some? then name else FirstFrameworkName(children[1..])
  }

  lemma {:induction false} TestDataAppend(cs: seq<Node>, c: Node)
    ensures TestData(cs + [c]) == TestData(cs) + (if GetTestFeatureAndFramework(c).0.Some? then [GetTestFeatureAndFramework(c).0.value.data] else [])
  {
    if cs == [] {
      assert [] + [c] == [c];
    } else {
      assert (cs + [c])[0] == cs[0] && (cs + [c])[1..] == cs[1..] + [c];
      TestDataAppend(cs[1..], c);
      var f := GetTestFeatureAndFramework(cs[0]).0;
      var g := GetTestFeatureAndFramework(c).0;
      SeqAssoc(if f.Some? then [f.value.data] else [], TestData(cs[1..]), if g.Some? then [g.value.data] else []);
    }
  }

  lemma {:induction false} FirstFrameworkNameAppend(cs: seq<Node>, c: Node)
    ensures FirstFrameworkName(cs + [c]) ==
      if FirstFrameworkName(cs).Some? then FirstFrameworkName(cs) else GetTestFeatureAndFramework(c).1
  {
    if cs == [] {
      assert [] + [c] == [c];
    } else {
      assert (cs + [c])[0] == cs[0] && (cs + [c])[1..] == cs[1..] + [c];
      FirstFrameworkNameAppend(cs[1..], c);
    }
  }

  /** Some child has a test feature exactly when there is test data, and then there is a framework. */
  lemma {:induction false} TestDataFramework(cs: seq<Node>)
    ensures FirstFrameworkName(cs).Some? <==> TestData(cs) != []
  {
    if cs != [] {
      TestDataFramework(cs[1..]);
    }
  }

  /** The loop of `_updateCodeLensForTestClass` over the children. */
  method CollectTestMethods(children: seq<Node>) returns (testMethods: seq<String>, testFrameworkName: Option<String>)
    ensures testMethods == TestData(children)
    ensures testFrameworkName == FirstFrameworkName(children)
  {
    testMethods := [];
    testFrameworkName := None;
    var i := 0;
    while i < |children|
      invariant 0 <= i <= |children|
      invariant testMethods == TestData(children[..i])
      invariant testFrameworkName == FirstFrameworkName(children[..i])
      invariant testFrameworkName.Some? ==> testFrameworkName.value != []
    {
      assert children[..i + 1] == children[..i] + [children[i]];
      TestDataAppend(children[..i], children[i]);
      FirstFrameworkNameAppend(children[..i], children[i]);
      var (testFeature, frameworkName) := GetTestFeatureAndFramework(children[i]);
      if testFeature.Some? {
        if testFrameworkName.None? {
          testFrameworkName := frameworkName;
        }
        testMethods := testMethods + [testFeature.value.data];
      } else {
        assert testMethods + [] == testMethods;
      }
      i := i + 1;
    }
    assert children[..i] == children;
  }

  predicate IsMethodDeclaration(n: Node) {
    n.kind == "MethodDeclaration"
  }

  /** The lenses `_updateCodeLensForTestClass` adds. */
  function ClassLenses(node: Node, fileName: String): seq<Lens> {
    var range := ToRange(node.location);
    var testMethods := TestData(node.childNodes);
    var framework := FirstFrameworkName(node.childNodes);
    if !exists k :: 0 <= k < |node.childNodes| && IsMethodDeclaration(node.childNodes[k]) then []
    else if testMethods == [] then []
    else [CommandLens(range, "Run All Tests", "dotnet.classTests.run", testMethods, fileName, framework),
          CommandLens(range, "Debug All Tests", "dotnet.classTests.debug", testMethods, fileName, framework)]
  }

  /** `_updateCodeLensForTestClass`. */
  method UpdateCodeLensForTestClass(bucket: seq<Lens>, fileName: String, node: Node) returns (bucket': seq<Lens>)
    ensures bucket' == bucket + ClassLenses(node, fileName)
  {
    if Find(node.childNodes, IsMethodDeclaration).None? {
      return bucket + [];
    }
    var testMethods, testFrameworkName := CollectTestMethods(node.childNodes);
    bucket' := bucket;
    if |testMethods| > 0 {
      var range := ToRange(node.location);
      bucket' := bucket' + [CommandLens(range, "Run All Tests", "dotnet.classTests.run", testMethods, fileName, testFrameworkName)];
      bucket' := bucket' + [CommandLens(range, "Debug All Tests", "dotnet.classTests.debug", testMethods, fileName, testFrameworkName)];
    } else {
      assert bucket' == bucket + [];
    }
  }

  /**
   * The lenses `_updateCodeLensForTest` adds: nothing without features; the
   * class lenses of a class with children in a project that is MSBuild-only;
   * then the node's own run and debug lenses when it has a test feature.
   */
  function TestLenses(node: Node, fileName: String, msBuildOnly: bool): seq<Lens> {
    if node.features.None? then []
    else
      var classPart := if node.kind == "ClassDeclaration" && |node.childNodes| > 0 && msBuildOnly then ClassLenses(node, fileName) else [];
      var (testFeature, framework) := GetTestFeatureAndFramework(node);
      var range := ToRange(node.location);
      classPart + (if testFeature.Some? then
        [CommandLens(range, "Run Test", "dotnet.test.run", [testFeature.value.data], fileName, framework),
         CommandLens(range, "Debug Test", "dotnet.test.debug", [testFeature.value.data], fileName, framework)]
      else [])
  }

  /**
   * All lenses of a subtree: its references lens, its children's lenses, then
   * its test lenses; a method the filter lookup finds, as written, yields none
   * for itself or its subtree.
   */
  function QuickFixLenses(node: Node, fileName: String, options: LensOptions, msBuildOnly: bool): seq<Lens>
    decreases node, 1
  {
    if IsFilteredMethodAsWritten(node) then []
    else
      (if options.showReferencesCodeLens then [ReferencesLens(fileName, ToRange(node.location))] else [])
      + ForestLenses(node.childNodes, fileName, options, msBuildOnly)
      + (if options.showTestsCodeLens then TestLenses(node, fileName, msBuildOnly) else [])
  }

  function ForestLenses(nodes: seq<Node>, fileName: String, options: LensOptions, msBuildOnly: bool): seq<Lens>
    decreases nodes, 0
  {
    if nodes == [] then [] else QuickFixLenses(nodes[0], fileName, options, msBuildOnly) + ForestLenses(nodes[1..], fileName, options, msBuildOnly)
  }

  lemma ForestLensesAppend(nodes: seq<Node>, n: Node, fileName: String, options: LensOptions, msBuildOnly: bool)
    ensures ForestLenses(nodes + [n], fileName, options, msBuildOnly) ==
            ForestLenses(nodes, fileName, options, msBuildOnly) + QuickFixLenses(n, fileName, options, msBuildOnly)
  {
    if nodes == [] {
      assert [] + [n] == [n];
    } else {
      assert (nodes + [n])[0] == nodes[0] && (nodes + [n])[1..] == nodes[1..] + [n];
      ForestLensesAppend(nodes[1..], n, fileName, options, msBuildOnly);
    }
  }

  /** `_updateCodeLensForTest`. */
  method UpdateCodeLensForTest(bucket: seq<Lens>, fileName: String, node: Node, msBuildOnly: bool) returns (bucket': seq<Lens>)
    ensures bucket' == bucket + TestLenses(node, fileName, msBuildOnly)
  {
    if node.features.None? {
      return bucket + [];
    }
    bucket' := bucket;
    var classPart: seq<Lens> := [];
    if node.kind == "ClassDeclaration" && |node.childNodes| > 0 {
      if msBuildOnly {
        bucket' := UpdateCodeLensForTestClass(bucket', fileName, node);
        classPart := ClassLenses(node, fileName);
      }
    }
    assert bucket' == bucket + classPart;
    var (testFeature, testFrameworkName) := GetTestFeatureAndFramework(node);
    if testFeature.Some? {
      var range := ToRange(node.location);
      bucket' := bucket' + [CommandLens(range, "Run Test", "dotnet.test.run", [testFeature.value.data], fileName, testFrameworkName)];
      bucket' := bucket' + [CommandLens(range, "Debug Test", "dotnet.test.debug", [testFeature.value.data], fileName, testFrameworkName)];
    } else {
      assert bucket' == bucket + classPart + [];
    }
  }

  /**
   * `_convertQuickFix`, with every awaited request taken as resolved at once,
   * so the lenses of a subtree land in the bucket in a fixed order.
   */
  method ConvertQuickFix(bucket: seq<Lens>, fileName: String, node: Node, options: LensOptions, msBuildOnly: bool)
    returns (bucket': seq<Lens>)
    ensures bucket' == bucket + QuickFixLenses(node, fileName, options, msBuildOnly)
    decreases node, 1
  {
    if IsFilteredMethodAsWritten(node) {
      assert QuickFixLenses(node, fileName, options, msBuildOnly) == [];
      return bucket + [];
    }
    var lens := ReferencesLens(fileName, ToRange(node.location));
    var refs: seq<Lens> := [];
    if options.showReferencesCodeLens {
      refs := [lens];
    }
    var afterRefs := bucket + refs;
    var afterChildren := ConvertChildren(afterRefs, fileName, node.childNodes, options, msBuildOnly);
    bucket' := afterChildren;
    if options.showTestsCodeLens {
      bucket' := UpdateCodeLensForTest(afterChildren, fileName, node, msBuildOnly);
    }
    QuickFixCompose(bucket, node, fileName, options, msBuildOnly);
  }

  lemma QuickFixCompose(bucket: seq<Lens>, node: Node, fileName: String, options: LensOptions, msBuildOnly: bool)
    requires !IsFilteredMethodAsWritten(node)
    ensures bucket + QuickFixLenses(node, fileName, options, msBuildOnly) ==
      bucket
      + (if options.showReferencesCodeLens then [ReferencesLens(fileName, ToRange(node.location))] else [])
      + ForestLenses(node.childNodes, fileName, options, msBuildOnly)
      + (if options.showTestsCodeLens then TestLenses(node, fileName, msBuildOnly) else [])
  {
    QuickFixUnfold(node, fileName, options, msBuildOnly);
    var a := if options.showReferencesCodeLens then [ReferencesLens(fileName, ToRange(node.location))] else [];
    var b := ForestLenses(node.childNodes, fileName, options, msBuildOnly);
    var c := if options.showTestsCodeLens then TestLenses(node, fileName, msBuildOnly) else [];
    SeqAssoc(bucket, a + b, c);
    SeqAssoc(bucket, a, b);
  }

  /** The loop of `_convertQuickFix` over a node's children. */
  method ConvertChildren(bucket: seq<Lens>, fileName: String, children: seq<Node>, options: LensOptions, msBuildOnly: bool)
    returns (bucket': seq<Lens>)
    ensures bucket' == bucket + ForestLenses(children, fileName, options, msBuildOnly)
    decreases children, 0
  {
    bucket' := bucket;
    var i := 0;
    while i < |children|
      invariant 0 <= i <= |children|
      invariant bucket' == bucket + ForestLenses(children[..i], fileName, options, msBuildOnly)
    {
      assert children[..i + 1] == children[..i] + [children[i]];
      ForestLensesAppend(children[..i], children[i], fileName, options, msBuildOnly);
      ghost var done := ForestLenses(children[..i], fileName, options, msBuildOnly);
      bucket' := ConvertQuickFix(bucket', fileName, children[i], options, msBuildOnly);
      assert bucket' == bucket + (done + QuickFixLenses(children[i], fileName, options, msBuildOnly));
      i := i + 1;
    }
    assert children[..i] == children;
  }

  lemma QuickFixUnfold(node: Node, fileName: String, options: LensOptions, msBuildOnly: bool)
    requires !IsFilteredMethodAsWritten(node)
    ensures QuickFixLenses(node, fileName, options, msBuildOnly) ==
      (if options.showReferencesCodeLens then [ReferencesLens(fileName, ToRange(node.location))] else [])
      + ForestLenses(node.childNodes, fileName, options, msBuildOnly)
      + (if options.showTestsCodeLens then TestLenses(node, fileName, msBuildOnly) else [])
  {
  }

  /** A filtered method contributes no lens, not even for its children; `valueOf` is one as written. */
  lemma FilteredMethodSkipsSubtree(node: Node, fileName: String, options: LensOptions, msBuildOnly: bool)
    requires IsFilteredMethodAsWritten(node)
    ensures QuickFixLenses(node, fileName, options, msBuildOnly) == []
  {
  }

  /** A method named `valueOf` yields no lens at all, whatever its subtree holds and whichever lenses are on. */
  lemma PrototypeMethodSubtreeDropped(node: Node, fileName: String, options: LensOptions, msBuildOnly: bool)
    requires node.kind == "MethodDeclaration" && node.location.text == "valueOf"
    ensures QuickFixLenses(node, fileName, options, msBuildOnly) == []
  {
    PrototypeNameHidesNode(node);
    FilteredMethodSkipsSubtree(node, fileName, options, msBuildOnly);
  }

  predicate AllReferences(lenses: seq<Lens>) {
    forall k :: 0 <= k < |lenses| ==> lenses[k].ReferencesLens?
  }

  /** With only references lenses enabled, every lens of a forest is a references lens. */
  lemma {:induction false} OnlyReferencesLenses(nodes: seq<Node>, fileName: String, options: LensOptions, msBuildOnly: bool)
    requires options.showReferencesCodeLens && !options.showTestsCodeLens
    ensures AllReferences(ForestLenses(nodes, fileName, options, msBuildOnly))
    decreases nodes
  {
    if nodes != [] {
      var n := nodes[0];
      var here := QuickFixLenses(n, fileName, options, msBuildOnly);
      if !IsFilteredMethodAsWritten(n) {
        OnlyReferencesLenses(n.childNodes, fileName, options, msBuildOnly);
        QuickFixUnfold(n, fileName, options, msBuildOnly);
        var children := ForestLenses(n.childNodes, fileName, options, msBuildOnly);
        assert here == [ReferencesLens(fileName, ToRange(n.location))] + children + [];
      }
      assert AllReferences(here);
      OnlyReferencesLenses(nodes[1..], fileName, options, msBuildOnly);
    }
  }

  /** A test method node gets a run lens and then a debug lens for its test feature's data. */
  lemma TestFeatureLenses(node: Node, fileName: String, msBuildOnly: bool)
    requires node.kind != "ClassDeclaration" && node.features.Some?
    requires FirstTestFeature(node.features.value).Some?
    ensures var f := FirstTestFeature(node.features.value).value;
            TestLenses(node, fileName, msBuildOnly) ==
              [CommandLens(ToRange(node.location), "Run Test", "dotnet.test.run", [f.data], fileName, Some(FrameworkOf(f))),
               CommandLens(ToRange(node.location), "Debug Test", "dotnet.test.debug", [f.data], fileName, Some(FrameworkOf(f)))]
  {
    var lenses := TestLenses(node, fileName, msBuildOnly);
    var none: seq<Lens> := [];
    assert none + [lenses[0], lenses[1]] == [lenses[0], lenses[1]];
  }

  /** The references title of a resolved lens. */
  function ReferencesTitle(count: nat): (title: String)
    ensures count == 1 ==> title == "1 reference"
    ensures count != 1 ==> title == NatToString(count) + " references"
  {
    if count == 1 then "1 reference" else NatToString(count) + " references"
  }
}
