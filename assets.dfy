/**
 * The debugging-asset helpers of the C# extension (`assets.js`; its 1.15.2 and
 * 1.17.1 versions agree on everything modelled here): build-task discovery in an
 * existing `tasks.json`, the add/update operations, the JSON indentation helper,
 * and the `AssetGenerator`'s choice of project and the paths, task and task
 * configuration it derives from it. Node's `path` functions are host functions
 * and are passed in.
 */
module Assets {
  import opened Wrappers
  import opened JsString
  import opened JsValue
  import Protocol
  import Common

  // ---------------------------------------------------------------------------
  // `getBuildTasks`.

  /** A task of a parsed `tasks.json`: the two properties the search reads. */
  datatype TaskDescription = TaskDescription(labelText: Value, isBuildCommand: Value, group: Value)

  /** A platform section (`windows`, `osx`, `linux`) of `tasks.json`. */
  datatype PlatformTasks = PlatformTasks(tasks: Option<seq<TaskDescription>>)

  /** A parsed `tasks.json`; absent properties are `None`. */
  datatype TasksConfiguration = TasksConfiguration(version: Value, tasks: Option<seq<TaskDescription>>,
    windows: Option<PlatformTasks>, osx: Option<PlatformTasks>, linux: Option<PlatformTasks>)

  const TasksV1: String := "0.1.0"
  const TasksV2: String := "2.0.0"

  /** A build task of the configuration's version: `isBuildCommand` in 0.1.0, `group: 'build'` in 2.0.0. */
  predicate IsBuildTask(version: Value, td: TaskDescription) {
    (version == Str(TasksV1) && Truthy(td.isBuildCommand)) || (version == Str(TasksV2) && td.group == Str("build"))
  }

  /** `findBuildTask`: the first build task of a task list, if the list exists. */
  function FindBuildTask(version: Value, tds: Option<seq<TaskDescription>>): (r: Option<TaskDescription>)
    ensures tds.None? ==> r.None?
  {
    if version == Str(TasksV1) && tds.Some? then Find(tds.value, (td: TaskDescription) => Truthy(td.isBuildCommand))
    else if version == Str(TasksV2) && tds.Some? then Find(tds.value, (td: TaskDescription) => td.group == Str("build"))
    else None
  }

  /** The build task found is the first one of the list; none is found exactly when the list has none. */
  lemma FindBuildTaskMeaning(version: Value, tds: Option<seq<TaskDescription>>)
    ensures var r := FindBuildTask(version, tds);
      (r.None? <==> tds.None? || forall k :: 0 <= k < |tds.value| ==> !IsBuildTask(version, tds.value[k]))
      && (r.Some? ==> tds.Some?)
      && (r.Some? ==>
            (exists i :: 0 <= i < |tds.value| && tds.value[i] == r.value
               && IsBuildTask(version, r.value) && forall k :: 0 <= k < i ==> !IsBuildTask(version, tds.value[k])))
  {
  }

  function Found(o: Option<TaskDescription>): seq<TaskDescription> {
    if o.Some? then [o.value] else []
  }

  function PlatformList(p: Option<PlatformTasks>): Option<seq<TaskDescription>> {
    if p.Some? then p.value.tasks else None
  }

  /** The build tasks of the top level, then of the Windows, macOS and Linux sections. */
  function BuildTasks(c: TasksConfiguration): seq<TaskDescription> {
    Found(FindBuildTask(c.version, c.tasks)) + Found(FindBuildTask(c.version, PlatformList(c.windows)))
    + Found(FindBuildTask(c.version, PlatformList(c.osx))) + Found(FindBuildTask(c.version, PlatformList(c.linux)))
  }

  /** One call of the nested `findBuildTask`: push the build task of a list, if any. */
  method PushBuildTask(result: seq<TaskDescription>, version: Value, tds: Option<seq<TaskDescription>>)
    returns (r: seq<TaskDescription>)
    ensures r == result + Found(FindBuildTask(version, tds))
  {
    var buildTask: Option<TaskDescription> := None;
    if version == Str(TasksV1) && tds.Some? {
      buildTask := Find(tds.value, (td: TaskDescription) => Truthy(td.isBuildCommand));
    } else if version == Str(TasksV2) && tds.Some? {
      buildTask := Find(tds.value, (td: TaskDescription) => td.group == Str("build"));
    }
    r := result;
    if buildTask.Some? {
      r := r + [buildTask.value];
    }
  }

  /** `getBuildTasks`. */
  method GetBuildTasks(c: TasksConfiguration) returns (result: seq<TaskDescription>)
    ensures result == BuildTasks(c)
  {
    ghost var top := Found(FindBuildTask(c.version, c.tasks));
    ghost var windows := Found(FindBuildTask(c.version, PlatformList(c.windows)));
    ghost var osx := Found(FindBuildTask(c.version, PlatformList(c.osx)));
    ghost var linux := Found(FindBuildTask(c.version, PlatformList(c.linux)));
    result := [];
    result := PushBuildTask(result, c.version, c.tasks);
    assert result == top;
    if c.windows.Some? {
      result := PushBuildTask(result, c.version, c.windows.value.tasks);
    } else {
      assert windows == [];
    }
    assert result == top + windows;
    if c.osx.Some? {
      result := PushBuildTask(result, c.version, c.osx.value.tasks);
    } else {
      assert osx == [];
    }
    assert result == top + windows + osx;
    if c.linux.Some? {
      result := PushBuildTask(result, c.version, c.linux.value.tasks);
    } else {
      assert linux == [];
    }
    assert result == top + windows + osx + linux;
  }

  /** At most one task per section, each a build task of the configuration's version. */
  lemma BuildTasksShape(c: TasksConfiguration)
    ensures |BuildTasks(c)| <= 4
    ensures forall i :: 0 <= i < |BuildTasks(c)| ==> IsBuildTask(c.version, BuildTasks(c)[i])
  {
    FindBuildTaskMeaning(c.version, c.tasks);
    FindBuildTaskMeaning(c.version, PlatformList(c.windows));
    FindBuildTaskMeaning(c.version, PlatformList(c.osx));
    FindBuildTaskMeaning(c.version, PlatformList(c.linux));
    var a, b := Found(FindBuildTask(c.version, c.tasks)), Found(FindBuildTask(c.version, PlatformList(c.windows)));
    var d, e := Found(FindBuildTask(c.version, PlatformList(c.osx))), Found(FindBuildTask(c.version, PlatformList(c.linux)));
    assert forall t :: t in a ==> IsBuildTask(c.version, t);
    assert forall t :: t in b ==> IsBuildTask(c.version, t);
    assert forall t :: t in d ==> IsBuildTask(c.version, t);
    assert forall t :: t in e ==> IsBuildTask(c.version, t);
    AllBuildTasks(c.version, a, b, d, e);
  }

  lemma AllBuildTasks(version: Value, a: seq<TaskDescription>, b: seq<TaskDescription>, d: seq<TaskDescription>, e: seq<TaskDescription>)
    requires forall t :: t in a ==> IsBuildTask(version, t)
    requires forall t :: t in b ==> IsBuildTask(version, t)
    requires forall t :: t in d ==> IsBuildTask(version, t)
    requires forall t :: t in e ==> IsBuildTask(version, t)
    ensures forall i :: 0 <= i < |a + b + d + e| ==> IsBuildTask(version, (a + b + d + e)[i])
  {
    var all := a + b + d + e;
    forall i | 0 <= i < |all| ensures IsBuildTask(version, all[i]) {
      assert all[i] in all;
      assert all[i] in a || all[i] in b || all[i] in d || all[i] in e;
    }
  }

  /** Versions other than 0.1.0 and 2.0.0 have no build tasks. */
  lemma OtherVersionsHaveNone(c: TasksConfiguration)
    requires c.version != Str(TasksV1) && c.version != Str(TasksV2)
    ensures BuildTasks(c) == []
  {
  }

  /** The top-level build task, when there is one, comes first. */
  lemma TopLevelFirst(c: TasksConfiguration, i: nat)
    requires c.tasks.Some? && i < |c.tasks.value| && IsBuildTask(c.version, c.tasks.value[i])
    ensures |BuildTasks(c)| >= 1 && BuildTasks(c)[0] in c.tasks.value && IsBuildTask(c.version, BuildTasks(c)[0])
  {
    FindBuildTaskMeaning(c.version, c.tasks);
    var a := FindBuildTask(c.version, c.tasks);
    assert a.Some?;
    assert BuildTasks(c)[0] == a.value;
  }

  // ---------------------------------------------------------------------------
  // The operations and `hasAddOperations`.

  /** What `getOperations` decides; a property the source never sets is `false`. */
  datatype Operations = Operations(addTasksJson: bool, updateTasksJson: bool, addLaunchJson: bool)

  /**
   * `getBuildOperations` and `getLaunchOperations` without the file system: the
   * `tasks.json` is missing (`None`), unparsable (`Some(None)`) or parsed, and
   * `launch.json` exists or not.
   */
  function GetOperations(tasksJson: Option<Option<TasksConfiguration>>, launchJsonExists: bool): (r: Operations)
    ensures r.addTasksJson <==> tasksJson.None?
    ensures r.updateTasksJson <==> tasksJson.Some? && tasksJson.value.Some? && BuildTasks(tasksJson.value.value) == []
    ensures r.addLaunchJson <==> !launchJsonExists
  {
    var build :=
      if tasksJson.None? then Operations(true, false, false)
      else if tasksJson.value.None? then Operations(false, false, false)
      else Operations(false, |BuildTasks(tasksJson.value.value)| == 0, false);
    if launchJsonExists then build else build.(addLaunchJson := true)
  }

  /** `hasAddOperations` as written: `operations.addLaunchJson || operations.addLaunchJson`. */
  function HasAddOperationsAsWritten(ops: Operations): (r: bool)
    ensures r <==> ops.addLaunchJson
  {
    ops.addLaunchJson || ops.addLaunchJson
  }

  /** `hasAddOperations` as evidently intended: something is to be added. */
  function HasAddOperations(ops: Operations): (r: bool)
    ensures r <==> ops.addTasksJson || ops.addLaunchJson
  {
    ops.addLaunchJson || ops.addTasksJson
  }

  /**
   * With `launch.json` present and `tasks.json` missing the written test reports
   * nothing to add, so the assets are never offered.
   */
  lemma MissingTasksJsonIgnored()
    ensures GetOperations(None, true).addTasksJson
    ensures !HasAddOperationsAsWritten(GetOperations(None, true))
    ensures HasAddOperations(GetOperations(None, true))
  {
  }

  /** The intended test offers the assets exactly when one of the two files is missing. */
  lemma AssetsOfferedIffMissing(tasksJson: Option<Option<TasksConfiguration>>, launchJsonExists: bool)
    ensures HasAddOperations(GetOperations(tasksJson, launchJsonExists)) <==> tasksJson.None? || !launchJsonExists
  {
  }

  // ---------------------------------------------------------------------------
  // `indentJsonString`.

  function IndentLines(lines: seq<String>, pad: String): (r: seq<String>)
    ensures |r| == |lines| && forall i :: 0 <= i < |lines| ==> r[i] == pad + lines[i]
  {
    if lines == [] then [] else [pad + lines[0]] + IndentLines(lines[1..], pad)
  }

  /** The text before the final `trim`: every line prefixed by `numSpaces` spaces. */
  function Indented(json: String, numSpaces: nat): String {
    Join(IndentLines(Split(json, "\n"), Repeat(" ", numSpaces)), "\n")
  }

  /** `indentJsonString(json, numSpaces)`: the indented text, trimmed. */
  function IndentJsonString(json: String, numSpaces: nat): (r: String)
    ensures exists i :: TrimmedAt(Indented(json, numSpaces), r, i)
    ensures r == [] || (!IsWhite(r[0]) && !IsWhite(r[|r| - 1]))
  {
    Trim(Indented(json, numSpaces))
  }

  /** The default indentation of `indentJsonString`. */
  const DefaultIndent: nat := 4

  lemma RepeatSpaces(n: nat)
    ensures forall j :: 0 <= j < |Repeat(" ", n)| ==> Repeat(" ", n)[j] == ' '
  {
    if n > 0 {
      RepeatSpaces(n - 1);
      assert Repeat(" ", n) == " " + Repeat(" ", n - 1);
    }
  }

  /** The lines of the indented text are the lines of the input, each after `numSpaces` spaces. */
  lemma IndentedLines(json: String, numSpaces: nat)
    ensures var lines := Split(json, "\n");
      var out := Split(Indented(json, numSpaces), "\n");
      |out| == |lines| && forall i :: 0 <= i < |lines| ==> out[i] == Repeat(" ", numSpaces) + lines[i]
  {
    var lines := Split(json, "\n");
    var pad := Repeat(" ", numSpaces);
    var padded := IndentLines(lines, pad);
    SplitCharFree(json, '\n');
    RepeatSpaces(numSpaces);
    forall k, j | 0 <= k < |padded| && 0 <= j < |padded[k]|
      ensures padded[k][j] != '\n'
    {
      if j >= |pad| {
        assert padded[k][j] == lines[k][j - |pad|];
      }
    }
    SplitJoin(padded, '\n');
  }

  // ---------------------------------------------------------------------------
  // The `AssetGenerator`: its fields are written only while it is constructed,
  // so a generator is the record of those fields.

  /** Node's `path` functions and the native separator. */
  datatype PathOps = PathOps(join: (String, String) -> String, dirname: String -> String,
                             basename: String -> String, relative: (String, String) -> String, sep: String)

  /** The workspace information the generator reads: the projects, and the Cake, ScriptCs and solution paths. */
  datatype WorkspaceInfo = WorkspaceInfo(projects: Protocol.WorkspaceInformation, cakePath: Option<String>,
                                         scriptCsPath: Option<String>, solutionPath: Option<String>)

  predicate Falsy(p: Option<String>) {
    p.None? || p.value == []
  }

  /** The path of the first project.json project, when there is one and it is not empty. */
  function FirstProjectPath(projects: Protocol.WorkspaceInformation): Option<String> {
    if projects.dotNet.Some? && |projects.dotNet.value| > 0 && projects.dotNet.value[0].path != [] then Some(projects.dotNet.value[0].path)
    else None
  }

  /** The path whose workspace folder the generator uses when it is given none: Cake, then ScriptCs, then the first project.json project, then the solution. */
  function ResourcePath(info: WorkspaceInfo): (r: Option<String>)
    ensures !Falsy(info.cakePath) ==> r == info.cakePath
    ensures Falsy(info.cakePath) && !Falsy(info.scriptCsPath) ==> r == info.scriptCsPath
    ensures Falsy(info.cakePath) && Falsy(info.scriptCsPath) && FirstProjectPath(info.projects).Some? ==>
      r == FirstProjectPath(info.projects)
    ensures Falsy(info.cakePath) && Falsy(info.scriptCsPath) && FirstProjectPath(info.projects).None? ==>
      (if info.projects.msBuild.Some? then r == info.solutionPath else Falsy(r))
  {
    var afterCake := info.cakePath;
    var afterScript := if Falsy(afterCake) && info.scriptCsPath.Some? then info.scriptCsPath else afterCake;
    var dotNet := info.projects.dotNet;
    var afterDotNet := if Falsy(afterScript) && dotNet.Some? && |dotNet.value| > 0 then Some(dotNet.value[0].path) else afterScript;
    if Falsy(afterDotNet) && info.projects.msBuild.Some? then info.solutionPath else afterDotNet
  }

  /** The project the generator targets, or `NoProject` (`hasProject` unset). */
  datatype ProjectData =
    | NoProject
    | ProjectData(projectPath: String, projectFilePath: String, targetFramework: String, executableName: String, configurationName: String)

  const DebugConfiguration: String := "Debug"

  const MissingDotNet: String := "TypeError: Cannot read property 'Projects' of undefined"

  /**
   * `initializeProjectData`: the first executable MSBuild project; failing that
   * the first executable project.json project with a Debug configuration; an
   * absent `DotNet` part is then read and throws.
   */
  function InitializeProjectData(info: Protocol.WorkspaceInformation, paths: PathOps): (r: Result<ProjectData, String>)
    ensures r.Err? <==> (info.msBuild.None? || Protocol.ExecutableMSBuild(info.msBuild.value) == []) && info.dotNet.None?
  {
    if info.msBuild.Some? && Protocol.ExecutableMSBuild(info.msBuild.value) != [] then
      var t := Protocol.ExecutableMSBuild(info.msBuild.value)[0];
      Protocol.ExecutableMSBuildMembers(info.msBuild.value);
      assert t in Protocol.ExecutableMSBuild(info.msBuild.value);
      Ok(ProjectData(paths.dirname(t.path), t.path, Protocol.FindNetCoreAppTargetFramework(t).value.shortName,
                     t.assemblyName + ".dll", DebugConfiguration))
    else if info.dotNet.None? then Err(MissingDotNet)
    else
      var executable := Protocol.ExecutableProjectJson(info.dotNet.value, DebugConfiguration);
      if |executable| > 0 && |executable[0].frameworks| > 0 then
        var target := executable[0];
        var config := Find(target.configurations, (c: Protocol.ProjectConfiguration) => c.name == DebugConfiguration);
        if config.Some? then
          Ok(ProjectData(target.path, paths.join(target.path, "project.json"), target.frameworks[0].shortName,
                         paths.basename(config.value.compilationOutputAssemblyFile), DebugConfiguration))
        else Ok(NoProject)
      else Ok(NoProject)
  }

  /** The first executable MSBuild project is the first project of the input that is executable. */
  lemma FirstExecutableMSBuild(ps: seq<Protocol.MSBuildProject>)
    ensures Protocol.ExecutableMSBuild(ps) != [] <==> exists i :: 0 <= i < |ps| && Protocol.IsExecutableMSBuild(ps[i])
    ensures Protocol.ExecutableMSBuild(ps) != [] ==>
      (exists i :: 0 <= i < |ps| && ps[i] == Protocol.ExecutableMSBuild(ps)[0]
         && Protocol.IsExecutableMSBuild(ps[i]) && forall k :: 0 <= k < i ==> !Protocol.IsExecutableMSBuild(ps[k]))
  {
    ExecutableMSBuildNonEmpty(ps);
    if Protocol.ExecutableMSBuild(ps) != [] {
      FirstExecutableMSBuildAt(ps);
      var i :| FirstMSBuildAt(ps, i) && ps[i] == Protocol.ExecutableMSBuild(ps)[0];
    }
  }

  lemma ExecutableMSBuildNonEmpty(ps: seq<Protocol.MSBuildProject>)
    ensures Protocol.ExecutableMSBuild(ps) != [] <==> exists i :: 0 <= i < |ps| && Protocol.IsExecutableMSBuild(ps[i])
  {
    Protocol.ExecutableMSBuildMembers(ps);
    var e := Protocol.ExecutableMSBuild(ps);
    if e != [] {
      assert e[0] in e;
      var i :| 0 <= i < |ps| && ps[i] == e[0];
    } else {
      forall i | 0 <= i < |ps| ensures !Protocol.IsExecutableMSBuild(ps[i]) {
        assert ps[i] in ps;
      }
    }
  }

  /** `i` is the first executable MSBuild project of `ps`. */
  predicate FirstMSBuildAt(ps: seq<Protocol.MSBuildProject>, i: int) {
    0 <= i < |ps| && Protocol.IsExecutableMSBuild(ps[i]) && forall k :: 0 <= k < i ==> !Protocol.IsExecutableMSBuild(ps[k])
  }

  lemma ShiftFirstMSBuild(ps: seq<Protocol.MSBuildProject>, i: int)
    requires ps != [] && !Protocol.IsExecutableMSBuild(ps[0]) && FirstMSBuildAt(ps[1..], i)
    ensures FirstMSBuildAt(ps, i + 1) && ps[i + 1] == ps[1..][i]
  {
    forall k | 0 <= k < i + 1 ensures !Protocol.IsExecutableMSBuild(ps[k]) {
      if k > 0 {
        assert ps[k] == ps[1..][k - 1];
      }
    }
  }

  lemma {:induction false} FirstExecutableMSBuildAt(ps: seq<Protocol.MSBuildProject>)
    requires Protocol.ExecutableMSBuild(ps) != []
    ensures exists i :: FirstMSBuildAt(ps, i) && ps[i] == Protocol.ExecutableMSBuild(ps)[0]
  {
    assert ps != [];
    if Protocol.IsExecutableMSBuild(ps[0]) {
      assert Protocol.ExecutableMSBuild(ps)[0] == ps[0];
      assert FirstMSBuildAt(ps, 0);
    } else {
      assert Protocol.ExecutableMSBuild(ps) == [] + Protocol.ExecutableMSBuild(ps[1..]) == Protocol.ExecutableMSBuild(ps[1..]);
      FirstExecutableMSBuildAt(ps[1..]);
      var i :| FirstMSBuildAt(ps[1..], i) && ps[1..][i] == Protocol.ExecutableMSBuild(ps[1..])[0];
      ShiftFirstMSBuild(ps, i);
    }
  }

  /** The first executable project.json entry is the first project of the input that is executable. */
  lemma FirstExecutableProjectJson(ps: seq<Protocol.DotNetProject>, name: String)
    ensures Protocol.ExecutableProjectJson(ps, name) != [] <==> exists i :: 0 <= i < |ps| && Protocol.IsExecutableProjectJson(ps[i], name)
    ensures Protocol.ExecutableProjectJson(ps, name) != [] ==>
      (exists i :: 0 <= i < |ps| && ps[i] == Protocol.ExecutableProjectJson(ps, name)[0]
         && Protocol.IsExecutableProjectJson(ps[i], name) && forall k :: 0 <= k < i ==> !Protocol.IsExecutableProjectJson(ps[k], name))
  {
    ExecutableProjectJsonNonEmpty(ps, name);
    if Protocol.ExecutableProjectJson(ps, name) != [] {
      FirstExecutableProjectJsonAt(ps, name);
      var i :| FirstProjectJsonAt(ps, name, i) && ps[i] == Protocol.ExecutableProjectJson(ps, name)[0];
    }
  }

  lemma ExecutableProjectJsonNonEmpty(ps: seq<Protocol.DotNetProject>, name: String)
    ensures Protocol.ExecutableProjectJson(ps, name) != [] <==> exists i :: 0 <= i < |ps| && Protocol.IsExecutableProjectJson(ps[i], name)
  {
    var e := Protocol.ExecutableProjectJson(ps, name);
    if e != [] {
      Protocol.ExecutableProjectJsonMembers(ps, name, e[0]);
      assert e[0] in e;
      var i :| 0 <= i < |ps| && ps[i] == e[0];
    } else {
      forall i | 0 <= i < |ps| ensures !Protocol.IsExecutableProjectJson(ps[i], name) {
        Protocol.ExecutableProjectJsonMembers(ps, name, ps[i]);
        assert ps[i] in ps;
      }
    }
  }

  /** A project's own entries come before those of the projects after it. */
  lemma ProjectJsonHead(ps: seq<Protocol.DotNetProject>, name: String)
    requires ps != []
    ensures Protocol.ExecutableProjectJson(ps, name) == Protocol.Copies(ps[0], name) + Protocol.ExecutableProjectJson(ps[1..], name)
    ensures Protocol.IsExecutableProjectJson(ps[0], name) <==> |Protocol.Copies(ps[0], name)| > 0
  {
    Protocol.SelectedCountPositive(ps[0].configurations, name);
  }

  /** `i` is the first executable project.json project of `ps`. */
  predicate FirstProjectJsonAt(ps: seq<Protocol.DotNetProject>, name: String, i: int) {
    0 <= i < |ps| && Protocol.IsExecutableProjectJson(ps[i], name) && forall k :: 0 <= k < i ==> !Protocol.IsExecutableProjectJson(ps[k], name)
  }

  lemma ShiftFirstProjectJson(ps: seq<Protocol.DotNetProject>, name: String, i: int)
    requires ps != [] && !Protocol.IsExecutableProjectJson(ps[0], name) && FirstProjectJsonAt(ps[1..], name, i)
    ensures FirstProjectJsonAt(ps, name, i + 1) && ps[i + 1] == ps[1..][i]
  {
    forall k | 0 <= k < i + 1 ensures !Protocol.IsExecutableProjectJson(ps[k], name) {
      if k > 0 {
        assert ps[k] == ps[1..][k - 1];
      }
    }
  }

  lemma {:induction false} FirstExecutableProjectJsonAt(ps: seq<Protocol.DotNetProject>, name: String)
    requires Protocol.ExecutableProjectJson(ps, name) != []
    ensures exists i :: FirstProjectJsonAt(ps, name, i) && ps[i] == Protocol.ExecutableProjectJson(ps, name)[0]
  {
    assert ps != [];
    ProjectJsonHead(ps, name);
    var c := Protocol.Copies(ps[0], name);
    if |c| > 0 {
      assert Protocol.ExecutableProjectJson(ps, name)[0] == c[0] == ps[0];
      assert FirstProjectJsonAt(ps, name, 0);
    } else {
      assert c == [];
      assert Protocol.ExecutableProjectJson(ps, name) == Protocol.ExecutableProjectJson(ps[1..], name);
      FirstExecutableProjectJsonAt(ps[1..], name);
      var i :| FirstProjectJsonAt(ps[1..], name, i) && ps[1..][i] == Protocol.ExecutableProjectJson(ps[1..], name)[0];
      ShiftFirstProjectJson(ps, name, i);
    }
  }

  /** An executable MSBuild project takes precedence: the generator targets the first one. */
  lemma MSBuildProjectTakesPrecedence(info: Protocol.WorkspaceInformation, paths: PathOps, i: nat)
    requires info.msBuild.Some? && i < |info.msBuild.value| && Protocol.IsExecutableMSBuild(info.msBuild.value[i])
    ensures var r := InitializeProjectData(info, paths);
      r.Ok? && r.value.ProjectData? && r.value.configurationName == DebugConfiguration
      && (exists j :: 0 <= j <= i && r.value.projectFilePath == info.msBuild.value[j].path
            && Protocol.IsExecutableMSBuild(info.msBuild.value[j])
            && forall k :: 0 <= k < j ==> !Protocol.IsExecutableMSBuild(info.msBuild.value[k]))
  {
    var ps := info.msBuild.value;
    FirstExecutableMSBuild(ps);
    var j :| 0 <= j < |ps| && ps[j] == Protocol.ExecutableMSBuild(ps)[0]
      && Protocol.IsExecutableMSBuild(ps[j]) && forall k :: 0 <= k < j ==> !Protocol.IsExecutableMSBuild(ps[k]);
    assert j <= i;
    assert InitializeProjectData(info, paths).value.projectFilePath == ps[j].path;
  }

  /** Without an executable MSBuild project, the first executable project.json project is the target. */
  lemma ProjectJsonFallback(info: Protocol.WorkspaceInformation, paths: PathOps)
    requires info.msBuild.None? || Protocol.ExecutableMSBuild(info.msBuild.value) == []
    requires info.dotNet.Some?
    ensures var r := InitializeProjectData(info, paths);
      r.Ok? && (r.value.ProjectData? ==>
        (exists i :: 0 <= i < |info.dotNet.value| && r.value.projectPath == info.dotNet.value[i].path
           && Protocol.IsExecutableProjectJson(info.dotNet.value[i], DebugConfiguration)
           && forall k :: 0 <= k < i ==> !Protocol.IsExecutableProjectJson(info.dotNet.value[k], DebugConfiguration)))
    ensures (exists i :: 0 <= i < |info.dotNet.value| && Protocol.IsExecutableProjectJson(info.dotNet.value[i], DebugConfiguration))
      ==> InitializeProjectData(info, paths) != Ok(NoProject)
  {
    FirstExecutableProjectJson(info.dotNet.value, DebugConfiguration);
    var executable := Protocol.ExecutableProjectJson(info.dotNet.value, DebugConfiguration);
    if executable != [] {
      var t := executable[0];
      var j :| 0 <= j < |info.dotNet.value| && info.dotNet.value[j] == t && Protocol.IsExecutableProjectJson(info.dotNet.value[j], DebugConfiguration);
      var k :| 0 <= k < |t.configurations| && Protocol.ConfigurationSelected(t.configurations[k], DebugConfiguration);
      var config := Find(t.configurations, (c: Protocol.ProjectConfiguration) => c.name == DebugConfiguration);
      assert config.Some?;
    }
  }

  const WorkspaceFolderVariable: String := "${workspaceFolder}"
  const PlaceholderProgram: String := "${workspaceFolder}/bin/Debug/<insert-target-framework-here>/<insert-project-name-here>.dll"

  /** `${workspaceFolder}` joined with the project directory relative to the workspace folder, when it has one. */
  function ProjectDirectory(data: ProjectData, workspaceFolder: String, paths: PathOps): String
    requires data.ProjectData?
  {
    if data.projectPath != [] then paths.join(WorkspaceFolderVariable, paths.relative(workspaceFolder, data.projectPath))
    else WorkspaceFolderVariable
  }

  /** `computeProgramPath`. */
  function ComputeProgramPath(data: ProjectData, workspaceFolder: String, paths: PathOps): (r: String)
    ensures data.NoProject? ==> r == PlaceholderProgram
    ensures data.ProjectData? ==> r == paths.join(ProjectDirectory(data, workspaceFolder, paths),
      "bin/" + data.configurationName + "/" + data.targetFramework + "/" + data.executableName)
  {
    if data.NoProject? then PlaceholderProgram
    else paths.join(ProjectDirectory(data, workspaceFolder, paths),
      "bin/" + data.configurationName + "/" + data.targetFramework + "/" + data.executableName)
  }

  /** `computeWorkingDirectory`: the project directory, or `${workspaceFolder}` without a project. */
  function ComputeWorkingDirectory(data: ProjectData, workspaceFolder: String, paths: PathOps): (r: String)
    ensures data.NoProject? ==> r == WorkspaceFolderVariable
    ensures data.ProjectData? && data.projectPath == [] ==> r == WorkspaceFolderVariable
    ensures data.ProjectData? && data.projectPath != [] ==> r == paths.join(WorkspaceFolderVariable, paths.relative(workspaceFolder, data.projectPath))
  {
    if data.NoProject? then WorkspaceFolderVariable else ProjectDirectory(data, workspaceFolder, paths)
  }

  /** The build task the generator writes. */
  datatype BuildTask = BuildTask(labelText: String, command: String, taskType: String, args: seq<String>, problemMatcher: String)

  /** `createBuildTaskDescription`: `dotnet build` of the project file, as a POSIX path relative to the workspace. */
  function CreateBuildTaskDescription(data: ProjectData, workspaceFolder: String, paths: PathOps): (r: BuildTask)
    requires |paths.sep| > 0
    ensures r.labelText == "build" && r.command == "dotnet" && r.taskType == "process" && r.problemMatcher == "$msCompile"
    ensures |r.args| == 2 && r.args[0] == "build"
    ensures data.NoProject? ==> r.args[1] == []
    ensures data.ProjectData? ==>
      r.args[1] == Common.ConvertNativePathToPosix(paths.join(WorkspaceFolderVariable, paths.relative(workspaceFolder, data.projectFilePath)), paths.sep)
  {
    var buildPath := if data.ProjectData? then paths.join(WorkspaceFolderVariable, paths.relative(workspaceFolder, data.projectFilePath)) else [];
    assert buildPath == [] ==> Split(buildPath, paths.sep) == [[]];
    BuildTask("build", "dotnet", "process", ["build", Common.ConvertNativePathToPosix(buildPath, paths.sep)], "$msCompile")
  }

  /** `createTasksConfiguration`: version 2.0.0 with the single build task. */
  datatype GeneratedTasks = GeneratedTasks(version: String, tasks: seq<BuildTask>)

  function CreateTasksConfiguration(data: ProjectData, workspaceFolder: String, paths: PathOps): (r: GeneratedTasks)
    requires |paths.sep| > 0
    ensures r.version == TasksV2 && |r.tasks| == 1 && r.tasks[0].command == "dotnet"
      && |r.tasks[0].args| == 2 && r.tasks[0].args[0] == "build"
  {
    GeneratedTasks(TasksV2, [CreateBuildTaskDescription(data, workspaceFolder, paths)])
  }

  /** The generated configuration as `getBuildTasks` reads it back: the build task sets neither `isBuildCommand` nor `group`. */
  function ReadBack(g: GeneratedTasks): TasksConfiguration {
    TasksConfiguration(Str(g.version), Some(seq(|g.tasks|, i requires 0 <= i < |g.tasks| => TaskDescription(Str(g.tasks[i].labelText), Undefined, Undefined))),
      None, None, None)
  }

  /** A generated `tasks.json` has no task `getBuildTasks` recognises, so it would be marked for update. */
  lemma GeneratedTasksNotRecognised(data: ProjectData, workspaceFolder: String, paths: PathOps)
    requires |paths.sep| > 0
    ensures BuildTasks(ReadBack(CreateTasksConfiguration(data, workspaceFolder, paths))) == []
    ensures GetOperations(Some(Some(ReadBack(CreateTasksConfiguration(data, workspaceFolder, paths)))), true).updateTasksJson
  {
    var c := ReadBack(CreateTasksConfiguration(data, workspaceFolder, paths));
    assert forall k :: 0 <= k < |c.tasks.value| ==> !IsBuildTask(c.version, c.tasks.value[k]);
  }
}
