/**
 * The OmniSharp protocol helpers of the C# extension: target-framework searches,
 * .NET Core project classification and the code-structure walk. The 1.15.2 and
 * 1.17.1 versions of these functions are the same; only 1.17.1 has the walk.
 */
module Protocol {
  import opened Wrappers
  import opened JsString

  datatype TargetFramework = TargetFramework(shortName: String)

  /** An MSBuild project as reported by the server. */
  datatype MSBuildProject = MSBuildProject(path: String, assemblyName: String, isExe: bool, targetFrameworks: seq<TargetFramework>)

  /** A project.json configuration; `emitEntryPoint` is true only when the property is exactly `true`. */
  datatype ProjectConfiguration = ProjectConfiguration(name: String, emitEntryPoint: bool, compilationOutputAssemblyFile: String)

  /** A project.json project. */
  datatype DotNetProject = DotNetProject(name: String, path: String, configurations: seq<ProjectConfiguration>, frameworks: seq<TargetFramework>)

  /** The workspace information; an absent `DotNet` or `MsBuild` part is `None`. */
  datatype WorkspaceInformation = WorkspaceInformation(dotNet: Option<seq<DotNetProject>>, msBuild: Option<seq<MSBuildProject>>)

  datatype ProjectDescriptor = ProjectDescriptor(name: String, directory: String, filePath: String)

  /** The regular expression `^net[1-4]`. */
  predicate IsNetFramework(tf: TargetFramework) {
    |tf.shortName| >= 4 && tf.shortName[..3] == "net" && '1' <= tf.shortName[3] <= '4'
  }

  predicate IsNetCoreApp(tf: TargetFramework) {
    StartsWith(tf.shortName, "netcoreapp")
  }

  predicate IsNetStandard(tf: TargetFramework) {
    StartsWith(tf.shortName, "netstandard")
  }

  function FindNetFrameworkTargetFramework(project: MSBuildProject): (r: Option<TargetFramework>)
    ensures r.Some? ==> r.value in project.targetFrameworks && IsNetFramework(r.value)
    ensures r.None? <==> forall k :: 0 <= k < |project.targetFrameworks| ==> !IsNetFramework(project.targetFrameworks[k])
  {
    Find(project.targetFrameworks, IsNetFramework)
  }

  function FindNetCoreAppTargetFramework(project: MSBuildProject): (r: Option<TargetFramework>)
    ensures r.Some? ==> r.value in project.targetFrameworks && IsNetCoreApp(r.value)
    ensures r.None? <==> forall k :: 0 <= k < |project.targetFrameworks| ==> !IsNetCoreApp(project.targetFrameworks[k])
  {
    Find(project.targetFrameworks, IsNetCoreApp)
  }

  function FindNetStandardTargetFramework(project: MSBuildProject): (r: Option<TargetFramework>)
    ensures r.Some? ==> r.value in project.targetFrameworks && IsNetStandard(r.value)
    ensures r.None? <==> forall k :: 0 <= k < |project.targetFrameworks| ==> !IsNetStandard(project.targetFrameworks[k])
  {
    Find(project.targetFrameworks, IsNetStandard)
  }

  /** `isDotNetCoreProject`: some target framework is netcoreapp, netstandard or .NET Framework 1-4. */
  function IsDotNetCoreProject(project: MSBuildProject): (r: bool)
    ensures r <==> (exists k :: 0 <= k < |project.targetFrameworks| &&
                      (IsNetCoreApp(project.targetFrameworks[k]) || IsNetStandard(project.targetFrameworks[k]) ||
                       IsNetFramework(project.targetFrameworks[k])))
  {
    FindNetCoreAppTargetFramework(project).Some? ||
    FindNetStandardTargetFramework(project).Some? ||
    FindNetFrameworkTargetFramework(project).Some?
  }

  /** The descriptor of a project.json project. */
  function DotNetDescriptor(p: DotNetProject, join: (String, String) -> String): (r: ProjectDescriptor)
    ensures r.name == p.name && r.directory == p.path && r.filePath == join(r.directory, "project.json")
  {
    ProjectDescriptor(p.name, p.path, join(p.path, "project.json"))
  }

  /** The descriptor of an MSBuild project. */
  function MSBuildDescriptor(p: MSBuildProject, basename: String -> String, dirname: String -> String): (r: ProjectDescriptor)
    ensures r.filePath == p.path && r.name == basename(r.filePath) && r.directory == dirname(r.filePath)
  {
    ProjectDescriptor(basename(p.path), dirname(p.path), p.path)
  }

  function DotNetDescriptors(ps: seq<DotNetProject>, join: (String, String) -> String): (r: seq<ProjectDescriptor>)
    ensures |r| == |ps|
    ensures forall k :: 0 <= k < |ps| ==> r[k] == DotNetDescriptor(ps[k], join)
  {
    if ps == [] then [] else [DotNetDescriptor(ps[0], join)] + DotNetDescriptors(ps[1..], join)
  }

  /** The .NET Core MSBuild projects, in input order. */
  function DotNetCoreProjects(ps: seq<MSBuildProject>): (r: seq<MSBuildProject>)
    ensures forall p :: p in r <==> p in ps && IsDotNetCoreProject(p)
  {
    if ps == [] then []
    else (if IsDotNetCoreProject(ps[0]) then [ps[0]] else []) + DotNetCoreProjects(ps[1..])
  }

  function MSBuildDescriptors(ps: seq<MSBuildProject>, basename: String -> String, dirname: String -> String): (r: seq<ProjectDescriptor>)
    ensures |r| == |ps|
    ensures forall k :: 0 <= k < |ps| ==> r[k] == MSBuildDescriptor(ps[k], basename, dirname)
  {
    if ps == [] then [] else [MSBuildDescriptor(ps[0], basename, dirname)] + MSBuildDescriptors(ps[1..], basename, dirname)
  }

  function OrEmpty<T>(o: Option<seq<T>>): seq<T> {
    if o.Some? then o.value else []
  }

  /**
   * `getDotNetCoreProjectDescriptors`: every project.json project, then every
   * .NET Core MSBuild project, each in input order.
   */
  method GetDotNetCoreProjectDescriptors(info: WorkspaceInformation, join: (String, String) -> String,
                                         basename: String -> String, dirname: String -> String)
    returns (result: seq<ProjectDescriptor>)
    ensures result == DotNetDescriptors(OrEmpty(info.dotNet), join)
                    + MSBuildDescriptors(DotNetCoreProjects(OrEmpty(info.msBuild)), basename, dirname)
  {
    result := [];
    var dotNet := OrEmpty(info.dotNet);
    var i := 0;
    while i < |dotNet|
      invariant 0 <= i <= |dotNet|
      invariant result == DotNetDescriptors(dotNet[..i], join)
    {
      assert dotNet[..i + 1] == dotNet[..i] + [dotNet[i]];
      DotNetDescriptorsAppend(dotNet[..i], dotNet[i], join);
      result := result + [DotNetDescriptor(dotNet[i], join)];
      i := i + 1;
    }
    assert dotNet[..i] == dotNet;
    var msBuildPart := MSBuildCoreDescriptors(OrEmpty(info.msBuild), basename, dirname);
    result := result + msBuildPart;
  }

  /** The second loop of `getDotNetCoreProjectDescriptors`, over the MSBuild projects. */
  method MSBuildCoreDescriptors(msBuild: seq<MSBuildProject>, basename: String -> String, dirname: String -> String)
    returns (result: seq<ProjectDescriptor>)
    ensures result == MSBuildDescriptors(DotNetCoreProjects(msBuild), basename, dirname)
  {
    result := [];
    var j := 0;
    while j < |msBuild|
      invariant 0 <= j <= |msBuild|
      invariant result == MSBuildDescriptors(DotNetCoreProjects(msBuild[..j]), basename, dirname)
    {
      assert msBuild[..j + 1] == msBuild[..j] + [msBuild[j]];
      DotNetCoreProjectsAppend(msBuild[..j], msBuild[j]);
      var kept := DotNetCoreProjects(msBuild[..j]);
      if IsDotNetCoreProject(msBuild[j]) {
        MSBuildDescriptorsAppend(kept, msBuild[j], basename, dirname);
        result := result + [MSBuildDescriptor(msBuild[j], basename, dirname)];
      } else {
        assert kept + [] == kept;
      }
      j := j + 1;
    }
    assert msBuild[..j] == msBuild;
  }

  lemma DotNetDescriptorsAppend(ps: seq<DotNetProject>, p: DotNetProject, join: (String, String) -> String)
    ensures DotNetDescriptors(ps + [p], join) == DotNetDescriptors(ps, join) + [DotNetDescriptor(p, join)]
  {
  }

  lemma MSBuildDescriptorsAppend(ps: seq<MSBuildProject>, p: MSBuildProject, basename: String -> String, dirname: String -> String)
    ensures MSBuildDescriptors(ps + [p], basename, dirname) == MSBuildDescriptors(ps, basename, dirname) + [MSBuildDescriptor(p, basename, dirname)]
  {
  }

  lemma {:induction false} DotNetCoreProjectsAppend(ps: seq<MSBuildProject>, p: MSBuildProject)
    ensures DotNetCoreProjects(ps + [p]) == DotNetCoreProjects(ps) + (if IsDotNetCoreProject(p) then [p] else [])
  {
    if ps == [] {
      assert [] + [p] == [p];
    } else {
      assert (ps + [p])[0] == ps[0] && (ps + [p])[1..] == ps[1..] + [p];
      DotNetCoreProjectsAppend(ps[1..], p);
      SeqAssoc(if IsDotNetCoreProject(ps[0]) then [ps[0]] else [], DotNetCoreProjects(ps[1..]), if IsDotNetCoreProject(p) then [p] else []);
    }
  }

  /** An MSBuild project is executable when it is an exe with a netcoreapp framework. */
  predicate IsExecutableMSBuild(p: MSBuildProject) {
    p.isExe && FindNetCoreAppTargetFramework(p).Some?
  }

  function ExecutableMSBuild(ps: seq<MSBuildProject>): seq<MSBuildProject> {
    if ps == [] then [] else (if IsExecutableMSBuild(ps[0]) then [ps[0]] else []) + ExecutableMSBuild(ps[1..])
  }

  lemma {:induction false} ExecutableMSBuildAppend(ps: seq<MSBuildProject>, p: MSBuildProject)
    ensures ExecutableMSBuild(ps + [p]) == ExecutableMSBuild(ps) + (if IsExecutableMSBuild(p) then [p] else [])
  {
    if ps == [] {
      assert [] + [p] == [p];
    } else {
      assert (ps + [p])[0] == ps[0] && (ps + [p])[1..] == ps[1..] + [p];
      ExecutableMSBuildAppend(ps[1..], p);
      SeqAssoc(if IsExecutableMSBuild(ps[0]) then [ps[0]] else [], ExecutableMSBuild(ps[1..]), if IsExecutableMSBuild(p) then [p] else []);
    }
  }

  /** A project is in the filtered list exactly when it is in the input and executable. */
  lemma {:induction false} ExecutableMSBuildMembers(ps: seq<MSBuildProject>)
    ensures forall p :: p in ExecutableMSBuild(ps) <==> p in ps && IsExecutableMSBuild(p)
  {
    if ps != [] {
      ExecutableMSBuildMembers(ps[1..]);
      assert forall p :: p in ps <==> p == ps[0] || p in ps[1..];
    }
  }

  /** `findExecutableMSBuildProjects`. */
  method FindExecutableMSBuildProjects(projects: seq<MSBuildProject>) returns (result: seq<MSBuildProject>)
    ensures result == ExecutableMSBuild(projects)
  {
    result := [];
    var i := 0;
    while i < |projects|
      invariant 0 <= i <= |projects|
      invariant result == ExecutableMSBuild(projects[..i])
    {
      assert projects[..i + 1] == projects[..i] + [projects[i]];
      ExecutableMSBuildAppend(projects[..i], projects[i]);
      if projects[i].isExe && FindNetCoreAppTargetFramework(projects[i]).Some? {
        result := result + [projects[i]];
      } else {
        assert result + [] == result;
      }
      i := i + 1;
    }
    assert projects[..i] == projects;
  }

  predicate ConfigurationSelected(c: ProjectConfiguration, configurationName: String) {
    c.name == configurationName && c.emitEntryPoint
  }

  /** The number of configurations with the name that emit an entry point. */
  function SelectedCount(cs: seq<ProjectConfiguration>, configurationName: String): nat {
    if cs == [] then 0 else (if ConfigurationSelected(cs[0], configurationName) then 1 else 0) + SelectedCount(cs[1..], configurationName)
  }

  /** A project.json project with frameworks and a selected configuration. */
  predicate IsExecutableProjectJson(p: DotNetProject, configurationName: String) {
    |p.frameworks| > 0 && exists k :: 0 <= k < |p.configurations| && ConfigurationSelected(p.configurations[k], configurationName)
  }

  /** `n` copies of `p`. */
  function Repeat(n: nat, p: DotNetProject): (r: seq<DotNetProject>)
    ensures |r| == n && forall k :: 0 <= k < n ==> r[k] == p
  {
    if n == 0 then [] else Repeat(n - 1, p) + [p]
  }

  /** The entries one project contributes: one per selected configuration, none without frameworks. */
  function Copies(p: DotNetProject, configurationName: String): seq<DotNetProject> {
    Repeat(if |p.frameworks| > 0 then SelectedCount(p.configurations, configurationName) else 0, p)
  }

  /** A project with frameworks appears once per selected configuration. */
  function ExecutableProjectJson(ps: seq<DotNetProject>, configurationName: String): seq<DotNetProject> {
    if ps == [] then []
    else Copies(ps[0], configurationName) + ExecutableProjectJson(ps[1..], configurationName)
  }

  lemma {:induction false} ExecutableProjectJsonAppend(ps: seq<DotNetProject>, p: DotNetProject, configurationName: String)
    ensures ExecutableProjectJson(ps + [p], configurationName) ==
      ExecutableProjectJson(ps, configurationName) + Copies(p, configurationName)
  {
    if ps == [] {
      assert [] + [p] == [p];
      assert [p][1..] == [];
    } else {
      assert (ps + [p])[0] == ps[0] && (ps + [p])[1..] == ps[1..] + [p];
      ExecutableProjectJsonAppend(ps[1..], p, configurationName);
      SeqAssoc(Copies(ps[0], configurationName), ExecutableProjectJson(ps[1..], configurationName), Copies(p, configurationName));
    }
  }

  lemma {:induction false} SelectedCountAppend(cs: seq<ProjectConfiguration>, c: ProjectConfiguration, configurationName: String)
    ensures SelectedCount(cs + [c], configurationName) == SelectedCount(cs, configurationName) + (if ConfigurationSelected(c, configurationName) then 1 else 0)
  {
    if cs != [] {
      assert (cs + [c])[0] == cs[0] && (cs + [c])[1..] == cs[1..] + [c];
      SelectedCountAppend(cs[1..], c, configurationName);
    }
  }

  lemma {:induction false} SelectedCountPositive(cs: seq<ProjectConfiguration>, configurationName: String)
    ensures SelectedCount(cs, configurationName) > 0 <==> exists k :: 0 <= k < |cs| && ConfigurationSelected(cs[k], configurationName)
  {
    if cs != [] {
      SelectedCountPositive(cs[1..], configurationName);
      assert forall k :: 1 <= k < |cs| ==> cs[k] == cs[1..][k - 1];
      if SelectedCount(cs[1..], configurationName) > 0 {
        var k :| 0 <= k < |cs[1..]| && ConfigurationSelected(cs[1..][k], configurationName);
        assert ConfigurationSelected(cs[k + 1], configurationName);
      }
    }
  }

  /** A project is listed exactly when it has frameworks and a selected configuration. */
  lemma {:induction false} ExecutableProjectJsonMembers(ps: seq<DotNetProject>, configurationName: String, p: DotNetProject)
    ensures p in ExecutableProjectJson(ps, configurationName) <==> p in ps && IsExecutableProjectJson(p, configurationName)
  {
    if ps != [] {
      ExecutableProjectJsonMembers(ps[1..], configurationName, p);
      SelectedCountPositive(ps[0].configurations, configurationName);
      var copies := if |ps[0].frameworks| > 0 then SelectedCount(ps[0].configurations, configurationName) else 0;
      assert p in Copies(ps[0], configurationName) <==> copies > 0 && p == ps[0] by {
        if copies > 0 { assert Copies(ps[0], configurationName)[0] == ps[0]; }
      }
      assert p in ps <==> p == ps[0] || p in ps[1..];
    }
  }

  /** `findExecutableProjectJsonProjects`: one entry per matching configuration. */
  method FindExecutableProjectJsonProjects(projects: seq<DotNetProject>, configurationName: String) returns (result: seq<DotNetProject>)
    ensures result == ExecutableProjectJson(projects, configurationName)
  {
    result := [];
    var i := 0;
    while i < |projects|
      invariant 0 <= i <= |projects|
      invariant result == ExecutableProjectJson(projects[..i], configurationName)
    {
      var project := projects[i];
      assert projects[..i + 1] == projects[..i] + [project];
      ExecutableProjectJsonAppend(projects[..i], project, configurationName);
      result := PushSelectedConfigurations(result, project, configurationName);
      i := i + 1;
    }
    assert projects[..i] == projects;
  }

  /** The inner loop of `findExecutableProjectJsonProjects`: one push per selected configuration of `project`. */
  method PushSelectedConfigurations(front: seq<DotNetProject>, project: DotNetProject, configurationName: String)
    returns (result: seq<DotNetProject>)
    ensures result == front + Copies(project, configurationName)
  {
    result := front;
    var j := 0;
    while j < |project.configurations|
      invariant 0 <= j <= |project.configurations|
      invariant result == front + Repeat(if |project.frameworks| > 0 then SelectedCount(project.configurations[..j], configurationName) else 0, project)
    {
      var configuration := project.configurations[j];
      assert project.configurations[..j + 1] == project.configurations[..j] + [configuration];
      SelectedCountAppend(project.configurations[..j], configuration, configurationName);
      ghost var n := if |project.frameworks| > 0 then SelectedCount(project.configurations[..j], configurationName) else 0;
      if configuration.name == configurationName && configuration.emitEntryPoint {
        if |project.frameworks| > 0 {
          assert Repeat(n + 1, project) == Repeat(n, project) + [project];
          SeqAssoc(front, Repeat(n, project), [project]);
          result := result + [project];
        }
      }
      j := j + 1;
    }
    assert project.configurations[..j] == project.configurations;
  }

  /** `containsDotNetCoreProjects`. */
  method ContainsDotNetCoreProjects(info: WorkspaceInformation) returns (r: bool)
    ensures r <==>
      (info.dotNet.Some? && exists p :: p in info.dotNet.value && IsExecutableProjectJson(p, "Debug"))
      || (info.msBuild.Some? && exists p :: p in info.msBuild.value && IsExecutableMSBuild(p))
  {
    if info.dotNet.Some? {
      var executable := FindExecutableProjectJsonProjects(info.dotNet.value, "Debug");
      forall p | p in info.dotNet.value
        ensures p in executable <==> IsExecutableProjectJson(p, "Debug")
      {
        ExecutableProjectJsonMembers(info.dotNet.value, "Debug", p);
      }
      if |executable| > 0 {
        ExecutableProjectJsonMembers(info.dotNet.value, "Debug", executable[0]);
        return true;
      }
    }
    if info.msBuild.Some? {
      var executable := FindExecutableMSBuildProjects(info.msBuild.value);
      ExecutableMSBuildMembers(info.msBuild.value);
      if |executable| > 0 {
        assert executable[0] in executable;
        return true;
      }
    }
    return false;
  }

  // ---------------------------------------------------------------------
  // Code structure (1.17.1 only)

  datatype Point = Point(line: int, column: int)
  datatype Range = Range(start: Point, end: Point)

  /**
   * A code element of the server's structure response. Missing `Children` is
   * modelled as an empty list, which the walk treats the same way; missing
   * `Properties` is `None`, and a missing property is a missing map key.
   */
  datatype CodeElement = CodeElement(
    kind: String,
    name: String,
    displayName: String,
    ranges: map<String, Range>,
    properties: Option<map<String, String>>,
    children: seq<CodeElement>)

  /** The calls `action(element, parent)` that `walkCodeElements` makes, in order. */
  function Walk(elements: seq<CodeElement>, parent: Option<CodeElement>): (r: seq<(CodeElement, Option<CodeElement>)>)
    ensures elements != [] ==> |r| > 0 && r[0] == (elements[0], parent)
    decreases elements
  {
    if elements == [] then []
    else [(elements[0], parent)] + Walk(elements[0].children, Some(elements[0])) + Walk(elements[1..], parent)
  }

  /** The number of elements in a forest. */
  function Size(elements: seq<CodeElement>): nat
    decreases elements
  {
    if elements == [] then 0 else 1 + Size(elements[0].children) + Size(elements[1..])
  }

  // An element of a forest is named by its path: its index among the
  // top-level elements, then its index among its parent's children, and so on.

  predicate ValidPath(elements: seq<CodeElement>, p: seq<nat>)
    decreases elements
  {
    p != [] && p[0] < |elements| && (|p| == 1 || ValidPath(elements[p[0]].children, p[1..]))
  }

  /** The element a path leads to. */
  function At(elements: seq<CodeElement>, p: seq<nat>): CodeElement
    requires ValidPath(elements, p)
    decreases elements
  {
    if |p| == 1 then elements[p[0]] else At(elements[p[0]].children, p[1..])
  }

  /**
   * Pre-order on paths: an ancestor comes before its descendants, and at the
   * first level where two paths differ the smaller index comes first.
   */
  predicate PathBefore(a: seq<nat>, b: seq<nat>)
    decreases |a|
  {
    if a == [] then b != []
    else b != [] && (a[0] < b[0] || (a[0] == b[0] && PathBefore(a[1..], b[1..])))
  }

  /** Each path of `ps` below the top-level index `i`. */
  function Prefixed(i: nat, ps: seq<seq<nat>>): (r: seq<seq<nat>>)
    ensures |r| == |ps|
  {
    if ps == [] then [] else [[i] + ps[0]] + Prefixed(i, ps[1..])
  }

  lemma {:induction false} PrefixedAt(i: nat, ps: seq<seq<nat>>, k: nat)
    requires k < |ps|
    ensures Prefixed(i, ps)[k] == [i] + ps[k]
  {
    if k > 0 {
      PrefixedAt(i, ps[1..], k - 1);
    }
  }

  /** The paths of the top-level elements from index `i` on and of their descendants, in the order the walk visits them. */
  function PathsFrom(elements: seq<CodeElement>, i: nat): seq<seq<nat>>
    requires i <= |elements|
    decreases elements, |elements| - i
  {
    if i == |elements| then []
    else [[i]] + Prefixed(i, PathsFrom(elements[i].children, 0)) + PathsFrom(elements, i + 1)
  }

  function PreOrder(elements: seq<CodeElement>): seq<seq<nat>> {
    PathsFrom(elements, 0)
  }

  // The paths from index `i`: the path `[i]`, then the paths of the
  // children below `i`, then those from `i + 1`.

  lemma PathsFromLength(elements: seq<CodeElement>, i: nat)
    requires i < |elements|
    ensures |PathsFrom(elements, i)| == 1 + |PathsFrom(elements[i].children, 0)| + |PathsFrom(elements, i + 1)|
  {
  }

  lemma PathsFromHead(elements: seq<CodeElement>, i: nat)
    requires i < |elements|
    ensures |PathsFrom(elements, i)| > 0 && PathsFrom(elements, i)[0] == [i]
  {
  }

  lemma PathsFromBelow(elements: seq<CodeElement>, i: nat, k: nat)
    requires i < |elements| && k < |PathsFrom(elements[i].children, 0)|
    ensures 1 + k < |PathsFrom(elements, i)|
    ensures PathsFrom(elements, i)[1 + k] == [i] + PathsFrom(elements[i].children, 0)[k]
  {
    PrefixedAt(i, PathsFrom(elements[i].children, 0), k);
  }

  lemma PathsFromAfter(elements: seq<CodeElement>, i: nat, k: nat)
    requires i < |elements| && k < |PathsFrom(elements, i + 1)|
    ensures 1 + |PathsFrom(elements[i].children, 0)| + k < |PathsFrom(elements, i)|
    ensures PathsFrom(elements, i)[1 + |PathsFrom(elements[i].children, 0)| + k] == PathsFrom(elements, i + 1)[k]
  {
  }

  /** The calls of the walk from index `i`: the element at `i`, the walk of its children, then the walk from `i + 1`. */
  lemma WalkFrom(elements: seq<CodeElement>, i: nat, parent: Option<CodeElement>)
    requires i < |elements|
    ensures Walk(elements[i..], parent)
         == [(elements[i], parent)] + Walk(elements[i].children, Some(elements[i])) + Walk(elements[i + 1..], parent)
  {
    assert elements[i..][0] == elements[i] && elements[i..][1..] == elements[i + 1..];
  }

  /** A path below a top-level element leads into its children. */
  lemma PathCons(elements: seq<CodeElement>, i: nat, q: seq<nat>)
    requires i < |elements| && ValidPath(elements[i].children, q)
    ensures ValidPath(elements, [i] + q) && At(elements, [i] + q) == At(elements[i].children, q)
  {
    assert ([i] + q)[1..] == q;
  }

  /** Every path from index `i` leads to an element of the forest, at index `i` or later. */
  lemma {:induction false} PathsFromValid(elements: seq<CodeElement>, i: nat, k: nat)
    requires i <= |elements| && k < |PathsFrom(elements, i)|
    ensures ValidPath(elements, PathsFrom(elements, i)[k]) && PathsFrom(elements, i)[k][0] >= i
    decreases elements, |elements| - i, 1
  {
    PathsFromLength(elements, i);
    if k == 0 {
      PathsFromHead(elements, i);
    } else if k - 1 < |PathsFrom(elements[i].children, 0)| {
      PathsFromValidBelow(elements, i, k);
    } else {
      PathsFromValidAfter(elements, i, k);
    }
  }

  lemma {:induction false} PathsFromValidBelow(elements: seq<CodeElement>, i: nat, k: nat)
    requires i < |elements| && 1 <= k <= |PathsFrom(elements[i].children, 0)|
    ensures k < |PathsFrom(elements, i)|
    ensures ValidPath(elements, PathsFrom(elements, i)[k]) && PathsFrom(elements, i)[k][0] >= i
    decreases elements, 0, 0
  {
    PathsFromBelow(elements, i, k - 1);
    PathsFromValid(elements[i].children, 0, k - 1);
    PathCons(elements, i, PathsFrom(elements[i].children, 0)[k - 1]);
  }

  lemma {:induction false} PathsFromValidAfter(elements: seq<CodeElement>, i: nat, k: nat)
    requires i < |elements| && 1 + |PathsFrom(elements[i].children, 0)| <= k < |PathsFrom(elements, i)|
    ensures ValidPath(elements, PathsFrom(elements, i)[k]) && PathsFrom(elements, i)[k][0] >= i
    decreases elements, |elements| - i, 0
  {
    var n := |PathsFrom(elements[i].children, 0)|;
    PathsFromLength(elements, i);
    PathsFromAfter(elements, i, k - 1 - n);
    PathsFromValid(elements, i + 1, k - 1 - n);
  }

  /** The elements the walk from index `i` visits, in order, written over indices like `PathsFrom`. */
  function Visits(elements: seq<CodeElement>, i: nat): (r: seq<CodeElement>)
    requires i <= |elements|
    decreases elements, |elements| - i
  {
    if i == |elements| then []
    else [elements[i]] + Visits(elements[i].children, 0) + Visits(elements, i + 1)
  }

  lemma {:induction false} VisitsLength(elements: seq<CodeElement>, i: nat)
    requires i <= |elements|
    ensures |Visits(elements, i)| == |PathsFrom(elements, i)|
    decreases elements, |elements| - i
  {
    if i < |elements| {
      VisitsLength(elements[i].children, 0);
      VisitsLength(elements, i + 1);
      PathsFromLength(elements, i);
    }
  }

  /** The `k`-th element visited from index `i` is the element at the `k`-th path. */
  lemma {:induction false} VisitsAt(elements: seq<CodeElement>, i: nat, k: nat)
    requires i <= |elements| && k < |PathsFrom(elements, i)|
    ensures ValidPath(elements, PathsFrom(elements, i)[k])
    ensures k < |Visits(elements, i)| && Visits(elements, i)[k] == At(elements, PathsFrom(elements, i)[k])
    decreases elements, |elements| - i, 1
  {
    PathsFromLength(elements, i);
    if k == 0 {
      VisitsAtHead(elements, i);
    } else if k - 1 < |PathsFrom(elements[i].children, 0)| {
      VisitsAtBelow(elements, i, k);
    } else {
      VisitsAtAfter(elements, i, k);
    }
  }

  lemma VisitsAtHead(elements: seq<CodeElement>, i: nat)
    requires i < |elements|
    ensures |PathsFrom(elements, i)| > 0 && ValidPath(elements, PathsFrom(elements, i)[0])
    ensures |Visits(elements, i)| > 0 && Visits(elements, i)[0] == At(elements, PathsFrom(elements, i)[0])
  {
    PathsFromHead(elements, i);
  }

  lemma {:induction false} VisitsAtBelow(elements: seq<CodeElement>, i: nat, k: nat)
    requires i < |elements| && 1 <= k <= |PathsFrom(elements[i].children, 0)|
    ensures k < |PathsFrom(elements, i)| && ValidPath(elements, PathsFrom(elements, i)[k])
    ensures k < |Visits(elements, i)| && Visits(elements, i)[k] == At(elements, PathsFrom(elements, i)[k])
    decreases elements, 0, 0
  {
    var e := elements[i];
    PathsFromBelow(elements, i, k - 1);
    VisitsAt(e.children, 0, k - 1);
    VisitsBelow(elements, i, k - 1);
    PathCons(elements, i, PathsFrom(e.children, 0)[k - 1]);
  }

  lemma {:induction false} VisitsAtAfter(elements: seq<CodeElement>, i: nat, k: nat)
    requires i < |elements| && 1 + |PathsFrom(elements[i].children, 0)| <= k < |PathsFrom(elements, i)|
    ensures ValidPath(elements, PathsFrom(elements, i)[k])
    ensures k < |Visits(elements, i)| && Visits(elements, i)[k] == At(elements, PathsFrom(elements, i)[k])
    decreases elements, |elements| - i, 0
  {
    var n := |PathsFrom(elements[i].children, 0)|;
    PathsFromLength(elements, i);
    PathsFromAfter(elements, i, k - 1 - n);
    VisitsAt(elements, i + 1, k - 1 - n);
    VisitsLength(elements[i].children, 0);
    VisitsAfter(elements, i, k - 1 - n);
    PathsFromValid(elements, i, k);
  }

  lemma VisitsBelow(elements: seq<CodeElement>, i: nat, k: nat)
    requires i < |elements| && k < |Visits(elements[i].children, 0)|
    ensures 1 + k < |Visits(elements, i)| && Visits(elements, i)[1 + k] == Visits(elements[i].children, 0)[k]
  {
  }

  lemma VisitsAfter(elements: seq<CodeElement>, i: nat, k: nat)
    requires i < |elements| && k < |Visits(elements, i + 1)|
    ensures 1 + |Visits(elements[i].children, 0)| + k < |Visits(elements, i)|
    ensures Visits(elements, i)[1 + |Visits(elements[i].children, 0)| + k] == Visits(elements, i + 1)[k]
  {
  }

  /** The walk from index `i` calls the action on the elements `Visits` lists, in that order. */
  lemma {:induction false} WalkVisits(elements: seq<CodeElement>, i: nat, parent: Option<CodeElement>)
    requires i <= |elements|
    ensures |Walk(elements[i..], parent)| == |Visits(elements, i)|
    ensures forall k :: 0 <= k < |Visits(elements, i)| ==> Walk(elements[i..], parent)[k].0 == Visits(elements, i)[k]
    decreases elements, |elements| - i
  {
    if i < |elements| {
      var e := elements[i];
      WalkFrom(elements, i, parent);
      assert e.children[0..] == e.children;
      WalkVisits(e.children, 0, Some(e));
      WalkVisits(elements, i + 1, parent);
      FirstsJoin((e, parent), Walk(e.children, Some(e)), Walk(elements[i + 1..], parent),
                 Visits(e.children, 0), Visits(elements, i + 1));
    }
  }

  /** Joining walks and visit lists that agree element by element keeps them agreeing. */
  lemma FirstsJoin(head: (CodeElement, Option<CodeElement>), wc: seq<(CodeElement, Option<CodeElement>)>,
                   wr: seq<(CodeElement, Option<CodeElement>)>, vc: seq<CodeElement>, vr: seq<CodeElement>)
    requires |wc| == |vc| && forall k :: 0 <= k < |wc| ==> wc[k].0 == vc[k]
    requires |wr| == |vr| && forall k :: 0 <= k < |wr| ==> wr[k].0 == vr[k]
    ensures |[head] + wc + wr| == |[head.0] + vc + vr|
    ensures forall k :: 0 <= k < |[head] + wc + wr| ==> ([head] + wc + wr)[k].0 == ([head.0] + vc + vr)[k]
  {
  }

  /** The `k`-th call of the walk from index `i` is on the element of the `k`-th path. */
  lemma WalkAt(elements: seq<CodeElement>, i: nat, parent: Option<CodeElement>, k: nat)
    requires i <= |elements| && k < |PathsFrom(elements, i)|
    ensures ValidPath(elements, PathsFrom(elements, i)[k])
    ensures k < |Walk(elements[i..], parent)| && Walk(elements[i..], parent)[k].0 == At(elements, PathsFrom(elements, i)[k])
  {
    VisitsAt(elements, i, k);
    WalkVisits(elements, i, parent);
  }

  lemma WalkLength(elements: seq<CodeElement>, i: nat, parent: Option<CodeElement>)
    requires i <= |elements|
    ensures |Walk(elements[i..], parent)| == |PathsFrom(elements, i)|
  {
    WalkVisits(elements, i, parent);
    VisitsLength(elements, i);
  }

  /** Every element of the forest from index `i` on has its path among the paths from `i`. */
  lemma {:induction false} PathsFromComplete(elements: seq<CodeElement>, i: nat, p: seq<nat>)
    requires i <= |elements| && ValidPath(elements, p) && p[0] >= i
    ensures p in PathsFrom(elements, i)
    decreases elements, |elements| - i
  {
    var inner := PathsFrom(elements[i].children, 0);
    var rest := PathsFrom(elements, i + 1);
    if p[0] == i {
      if |p| == 1 {
        PathsFromHead(elements, i);
        assert p == [i];
      } else {
        PathsFromComplete(elements[i].children, 0, p[1..]);
        var k :| 0 <= k < |inner| && inner[k] == p[1..];
        PathsFromBelow(elements, i, k);
        assert p == [i] + p[1..];
      }
    } else {
      PathsFromComplete(elements, i + 1, p);
      var k :| 0 <= k < |rest| && rest[k] == p;
      PathsFromAfter(elements, i, k);
    }
  }

  /** The paths from index `i` are in strictly increasing pre-order. */
  lemma {:induction false} PathsFromOrdered(elements: seq<CodeElement>, i: nat, a: nat, b: nat)
    requires i <= |elements| && a < b < |PathsFrom(elements, i)|
    ensures PathBefore(PathsFrom(elements, i)[a], PathsFrom(elements, i)[b])
    decreases elements, |elements| - i, 1
  {
    var n := |PathsFrom(elements[i].children, 0)|;
    PathsFromLength(elements, i);
    if a == 0 {
      HeadFirst(elements, i, b);
    } else if b - 1 < n {
      OrderedBelow(elements, i, a - 1, b - 1);
    } else if a - 1 < n {
      OrderedAcross(elements, i, a - 1, b - 1 - n);
    } else {
      OrderedAfter(elements, i, a - 1 - n, b - 1 - n);
    }
  }

  /** The path `[i]` comes before every other path from `i`. */
  lemma HeadFirst(elements: seq<CodeElement>, i: nat, b: nat)
    requires i < |elements| && 0 < b < |PathsFrom(elements, i)|
    ensures PathBefore(PathsFrom(elements, i)[0], PathsFrom(elements, i)[b])
  {
    var n := |PathsFrom(elements[i].children, 0)|;
    PathsFromLength(elements, i);
    PathsFromHead(elements, i);
    if b - 1 < n {
      PathsFromBelow(elements, i, b - 1);
      PathsFromValid(elements[i].children, 0, b - 1);
      PathBeforeCons(i, [], PathsFrom(elements[i].children, 0)[b - 1]);
      assert [i] + [] == [i];
    } else {
      PathsFromAfter(elements, i, b - 1 - n);
      PathsFromValid(elements, i + 1, b - 1 - n);
      PathBeforeFirst([i], PathsFrom(elements, i)[b]);
    }
  }

  /** Two paths below the element at `i` keep the order they have among its children. */
  lemma {:induction false} OrderedBelow(elements: seq<CodeElement>, i: nat, a: nat, b: nat)
    requires i < |elements| && a < b < |PathsFrom(elements[i].children, 0)|
    ensures 1 + b < |PathsFrom(elements, i)|
    ensures PathBefore(PathsFrom(elements, i)[1 + a], PathsFrom(elements, i)[1 + b])
    decreases elements, 0, 0
  {
    var inner := PathsFrom(elements[i].children, 0);
    PathsFromBelow(elements, i, a);
    PathsFromBelow(elements, i, b);
    PathsFromOrdered(elements[i].children, 0, a, b);
    PathBeforeCons(i, inner[a], inner[b]);
  }

  /** A path below the element at `i` comes before a path after it. */
  lemma OrderedAcross(elements: seq<CodeElement>, i: nat, a: nat, b: nat)
    requires i < |elements| && a < |PathsFrom(elements[i].children, 0)| && b < |PathsFrom(elements, i + 1)|
    ensures 1 + |PathsFrom(elements[i].children, 0)| + b < |PathsFrom(elements, i)|
    ensures PathBefore(PathsFrom(elements, i)[1 + a], PathsFrom(elements, i)[1 + |PathsFrom(elements[i].children, 0)| + b])
  {
    PathsFromBelow(elements, i, a);
    PathsFromAfter(elements, i, b);
    PathsFromValid(elements, i + 1, b);
    PathBeforeFirst([i] + PathsFrom(elements[i].children, 0)[a], PathsFrom(elements, i + 1)[b]);
  }

  /** Two paths after the element at `i` keep the order they have from `i + 1`. */
  lemma {:induction false} OrderedAfter(elements: seq<CodeElement>, i: nat, a: nat, b: nat)
    requires i < |elements| && a < b < |PathsFrom(elements, i + 1)|
    ensures 1 + |PathsFrom(elements[i].children, 0)| + b < |PathsFrom(elements, i)|
    ensures PathBefore(PathsFrom(elements, i)[1 + |PathsFrom(elements[i].children, 0)| + a],
                       PathsFrom(elements, i)[1 + |PathsFrom(elements[i].children, 0)| + b])
    decreases elements, |elements| - i, 0
  {
    PathsFromAfter(elements, i, a);
    PathsFromAfter(elements, i, b);
    PathsFromOrdered(elements, i + 1, a, b);
  }

  lemma PathBeforeCons(i: nat, x: seq<nat>, y: seq<nat>)
    ensures PathBefore([i] + x, [i] + y) == PathBefore(x, y)
  {
    assert ([i] + x)[1..] == x && ([i] + y)[1..] == y;
  }

  lemma PathBeforeFirst(a: seq<nat>, b: seq<nat>)
    requires a != [] && b != [] && a[0] < b[0]
    ensures PathBefore(a, b)
  {
  }

  lemma {:induction false} PathBeforeIrreflexive(a: seq<nat>)
    ensures !PathBefore(a, a)
    decreases |a|
  {
    if a != [] {
      PathBeforeIrreflexive(a[1..]);
    }
  }

  lemma {:induction false} PathBeforeAsymmetric(a: seq<nat>, b: seq<nat>)
    requires PathBefore(a, b)
    ensures !PathBefore(b, a)
    decreases |a|
  {
    if a != [] && b != [] && a[0] == b[0] {
      PathBeforeAsymmetric(a[1..], b[1..]);
    }
  }

  /** A path comes before every longer path it is a prefix of. */
  lemma {:induction false} PrefixBefore(a: seq<nat>, r: seq<nat>)
    requires r != []
    ensures PathBefore(a, a + r)
    decreases |a|
  {
    if a != [] {
      assert (a + r)[0] == a[0] && (a + r)[1..] == a[1..] + r;
      PrefixBefore(a[1..], r);
    }
  }

  /** Of two sibling paths, the one with the smaller last index comes first. */
  lemma {:induction false} SiblingBefore(p: seq<nat>, m: nat, n: nat)
    requires m < n
    ensures PathBefore(p + [m], p + [n])
    decreases |p|
  {
    if p != [] {
      assert (p + [m])[1..] == p[1..] + [m] && (p + [n])[1..] == p[1..] + [n];
      SiblingBefore(p[1..], m, n);
    }
  }

  /**
   * Every element is visited once: the walk makes one call per element of
   * the forest; its `k`-th call is on the element whose path is the `k`-th
   * of the pre-order; every element's path is in the pre-order, and no path
   * is there twice.
   */
  lemma {:induction false} WalkVisitsEach(elements: seq<CodeElement>, parent: Option<CodeElement>)
    ensures |Walk(elements, parent)| == Size(elements)
    ensures |Walk(elements, parent)| == |PreOrder(elements)|
    ensures forall k :: 0 <= k < |PreOrder(elements)| ==>
              ValidPath(elements, PreOrder(elements)[k]) && Walk(elements, parent)[k].0 == At(elements, PreOrder(elements)[k])
    ensures forall p :: ValidPath(elements, p) ==> p in PreOrder(elements)
    ensures forall a, b :: 0 <= a < b < |PreOrder(elements)| ==> PreOrder(elements)[a] != PreOrder(elements)[b]
    decreases elements
  {
    WalkSize(elements, parent);
    assert elements[0..] == elements;
    WalkLength(elements, 0, parent);
    forall k | 0 <= k < |PreOrder(elements)|
      ensures ValidPath(elements, PreOrder(elements)[k]) && Walk(elements, parent)[k].0 == At(elements, PreOrder(elements)[k])
    {
      WalkAt(elements, 0, parent, k);
    }
    forall p | ValidPath(elements, p)
      ensures p in PreOrder(elements)
    {
      PathsFromComplete(elements, 0, p);
    }
    forall a, b | 0 <= a < b < |PreOrder(elements)|
      ensures PreOrder(elements)[a] != PreOrder(elements)[b]
    {
      PathsFromOrdered(elements, 0, a, b);
      PathBeforeIrreflexive(PreOrder(elements)[a]);
    }
  }

  lemma {:induction false} WalkSize(elements: seq<CodeElement>, parent: Option<CodeElement>)
    ensures |Walk(elements, parent)| == Size(elements)
    decreases elements
  {
    if elements != [] {
      WalkSize(elements[0].children, Some(elements[0]));
      WalkSize(elements[1..], parent);
    }
  }

  /** Each call passes the element's true parent: the given one for a top-level element, else the element holding it. */
  lemma {:induction false} WalkPassesParent(elements: seq<CodeElement>, parent: Option<CodeElement>, k: nat)
    requires k < |Walk(elements, parent)|
    ensures Walk(elements, parent)[k].1 == parent || (Walk(elements, parent)[k].1.Some? && Walk(elements, parent)[k].0 in Walk(elements, parent)[k].1.value.children)
    ensures Walk(elements, parent)[k].1 == parent ==> Walk(elements, parent)[k].0 in elements || (parent.Some? && Walk(elements, parent)[k].0 in parent.value.children)
    decreases elements
  {
    var e := elements[0];
    var inner := Walk(e.children, Some(e));
    var rest := Walk(elements[1..], parent);
    assert Walk(elements, parent) == [(e, parent)] + inner + rest;
    if k == 0 {
    } else if k - 1 < |inner| {
      WalkPassesParent(e.children, Some(e), k - 1);
      assert Walk(elements, parent)[k] == inner[k - 1];
    } else {
      WalkPassesParent(elements[1..], parent, k - 1 - |inner|);
      assert Walk(elements, parent)[k] == rest[k - 1 - |inner|];
    }
  }

  /**
   * Pre-order: the paths of the calls are in strictly increasing pre-order,
   * so an element is visited before its descendants and siblings are
   * visited in their order.
   */
  lemma WalkPreOrder(elements: seq<CodeElement>)
    ensures forall a, b :: 0 <= a < b < |PreOrder(elements)| ==> PathBefore(PreOrder(elements)[a], PreOrder(elements)[b])
  {
    forall a, b | 0 <= a < b < |PreOrder(elements)|
      ensures PathBefore(PreOrder(elements)[a], PreOrder(elements)[b])
    {
      PathsFromOrdered(elements, 0, a, b);
    }
  }

  /** The call on an element comes before the calls on its descendants. */
  lemma AncestorVisitedFirst(elements: seq<CodeElement>, p: seq<nat>, r: seq<nat>, a: nat, b: nat)
    requires r != [] && a < |PreOrder(elements)| && b < |PreOrder(elements)|
    requires PreOrder(elements)[a] == p && PreOrder(elements)[b] == p + r
    ensures a < b
  {
    PrefixBefore(p, r);
    assert |p + r| != |p|;
    if b < a {
      PathsFromOrdered(elements, 0, b, a);
      PathBeforeAsymmetric(p, p + r);
    }
  }

  /** Of two siblings, the call on the one with the smaller index comes first. */
  lemma SiblingsVisitedInOrder(elements: seq<CodeElement>, p: seq<nat>, m: nat, n: nat, a: nat, b: nat)
    requires m < n && a < |PreOrder(elements)| && b < |PreOrder(elements)|
    requires PreOrder(elements)[a] == p + [m] && PreOrder(elements)[b] == p + [n]
    ensures a < b
  {
    SiblingBefore(p, m, n);
    assert (p + [m])[|p|] == m && (p + [n])[|p|] == n;
    if b < a {
      PathsFromOrdered(elements, 0, b, a);
      PathBeforeAsymmetric(p + [m], p + [n]);
    }
  }

  /** The first call is on the first element, and the second on its first child. */
  lemma WalkStarts(e: CodeElement, rest: seq<CodeElement>, parent: Option<CodeElement>)
    ensures Walk([e] + rest, parent)[0] == (e, parent)
    ensures e.children != [] ==> |Walk([e] + rest, parent)| > 1 && Walk([e] + rest, parent)[1] == (e.children[0], Some(e))
  {
    assert ([e] + rest)[0] == e && ([e] + rest)[1..] == rest;
    if e.children != [] {
      assert Walk(e.children, Some(e))[0] == (e.children[0], Some(e));
    }
  }
}
