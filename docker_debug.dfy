/**
 * The defaulting rules of the Docker extension's .NET Core debug configuration
 * provider (`dockerDebugConfigurationProvider.js`): how `${workspaceFolder}` is
 * resolved, and how the application folder, build context, build and run
 * options and the final `coreclr` debug configuration are filled in from what
 * the user's configuration gives. Node's `path` functions are parameters.
 */
module DockerDebug {
  import opened Wrappers
  import opened JsString

  /** Node's `path.join`, `path.dirname` and `path.normalize`. */
  datatype PathOps = PathOps(join: (String, String) -> String, dirname: String -> String, normalize: String -> String)

  // ---------------------------------------------------------------------------
  // `resolveFolderPath`: `folderPath.replace(/\$\{workspaceFolder\}/gi, folder)`.

  /** The placeholder, lowercased. */
  const Placeholder: String := "${workspacefolder}"

  /**
   * The case-insensitive pattern matches at `i`. Without the `u` flag a
   * character is compared by its upper-case form only when both forms are
   * ASCII, so the case folding is the ASCII one.
   */
  predicate PlaceholderAt(s: String, i: nat) {
    i + |Placeholder| <= |s| && forall k :: 0 <= k < |Placeholder| ==> LowerChar(s[i + k]) == Placeholder[k]
  }

  /** Every match, left to right and not overlapping, replaced by the folder's path. */
  function ResolveFolderPath(s: String, folder: String): String
    decreases |s|
  {
    if s == [] then []
    else if PlaceholderAt(s, 0) then folder + ResolveFolderPath(s[|Placeholder|..], folder)
      else [s[0]] + ResolveFolderPath(s[1..], folder)
  }

  predicate NoDollar(s: String) {
    forall k :: 0 <= k < |s| ==> s[k] != '$'
  }

  /** A text with no `$` holds no placeholder and is left as it is. */
  lemma {:induction false} ResolveWithoutPlaceholder(s: String, folder: String)
    requires NoDollar(s)
    ensures ResolveFolderPath(s, folder) == s
    decreases |s|
  {
    if s != [] {
      assert LowerChar(s[0]) != Placeholder[0];
      ResolveWithoutPlaceholder(s[1..], folder);
    }
  }

  /** A placeholder at the start is replaced, in any letter case. */
  lemma ResolveLeadingPlaceholder(p: String, b: String, folder: String)
    requires |p| == |Placeholder| && PlaceholderAt(p, 0)
    ensures ResolveFolderPath(p + b, folder) == folder + ResolveFolderPath(b, folder)
  {
    var s := p + b;
    assert PlaceholderAt(s, 0) by {
      forall k | 0 <= k < |Placeholder| ensures LowerChar(s[k]) == Placeholder[k] {
        assert s[k] == p[k];
      }
    }
    assert s[|Placeholder|..] == b;
  }

  /** A character other than `$` is copied. */
  lemma ResolveLeadingChar(c: char, t: String, folder: String)
    requires c != '$'
    ensures ResolveFolderPath([c] + t, folder) == [c] + ResolveFolderPath(t, folder)
  {
    var s := [c] + t;
    assert Placeholder[0] == '$';
    assert !PlaceholderAt(s, 0) by {
      assert LowerChar(s[0]) != Placeholder[0];
    }
    assert s[1..] == t;
  }

  /** A placeholder after a text with no `$` is replaced, in any letter case. */
  lemma {:induction false} ResolveAfterPlain(a: String, p: String, b: String, folder: String)
    requires NoDollar(a) && |p| == |Placeholder| && PlaceholderAt(p, 0)
    ensures ResolveFolderPath(a + p + b, folder) == a + folder + ResolveFolderPath(b, folder)
    decreases |a|
  {
    if a == [] {
      assert a + p + b == p + b;
      ResolveLeadingPlaceholder(p, b, folder);
    } else {
      ConsParts(a, p);
      SeqAssoc([a[0]], a[1..] + p, b);
      ResolveLeadingChar(a[0], a[1..] + p + b, folder);
      ResolveAfterPlain(a[1..], p, b, folder);
      ConsParts(a, folder);
      SeqAssoc([a[0]], a[1..] + folder, ResolveFolderPath(b, folder));
    }
  }

  /** Joining texts with no `$` by placeholders and resolving gives the texts joined by the folder's path. */
  lemma {:induction false} ResolveReplacesEveryPlaceholder(parts: seq<String>, p: String, folder: String)
    requires |parts| >= 1 && forall k :: 0 <= k < |parts| ==> NoDollar(parts[k])
    requires |p| == |Placeholder| && PlaceholderAt(p, 0)
    ensures ResolveFolderPath(Join(parts, p), folder) == Join(parts, folder)
    decreases |parts|
  {
    if |parts| == 1 {
      ResolveWithoutPlaceholder(parts[0], folder);
    } else {
      ResolveReplacesEveryPlaceholder(parts[1..], p, folder);
      ResolveAfterPlain(parts[0], p, Join(parts[1..], p), folder);
    }
  }

  // ---------------------------------------------------------------------------
  // The user's configuration. A missing or empty string is falsy.

  predicate Given(s: Option<String>) {
    s.Some? && s.value != []
  }

  type Labels = map<String, String>

  datatype DockerBuildConfig = DockerBuildConfig(
    context: Option<String>, dockerfile: Option<String>, args: Option<map<String, String>>,
    labels: Option<Labels>, tag: Option<String>, target: Option<String>)

  datatype DockerRunConfig = DockerRunConfig(
    containerName: Option<String>, env: Option<map<String, String>>, envFiles: Option<seq<String>>,
    labels: Option<Labels>, os: Option<String>)

  datatype DebugConfig = DebugConfig(
    name: String, preLaunchTask: Option<String>, appFolder: Option<String>, appProject: Option<String>,
    dockerBuild: Option<DockerBuildConfig>, dockerRun: Option<DockerRunConfig>)

  /** `{ 'com.microsoft.created-by': 'visual-studio-code' }`. */
  const DefaultLabels: Labels := map["com.microsoft.created-by" := "visual-studio-code"]

  function BuildConfig(c: Option<DebugConfig>): Option<DockerBuildConfig> {
    if c.Some? then c.value.dockerBuild else None
  }

  function RunConfig(c: Option<DebugConfig>): Option<DockerRunConfig> {
    if c.Some? then c.value.dockerRun else None
  }

  // ---------------------------------------------------------------------------
  // Inference.

  /** `inferAppFolder`: the configured folder, else the configured project's folder, else the workspace folder. */
  function InferAppFolder(folder: String, c: Option<DebugConfig>, paths: PathOps): (r: String)
    ensures c.Some? && Given(c.value.appFolder) ==> r == c.value.appFolder.value
    ensures c.Some? && !Given(c.value.appFolder) && Given(c.value.appProject) ==> r == paths.dirname(c.value.appProject.value)
    ensures (c.None? || (!Given(c.value.appFolder) && !Given(c.value.appProject))) ==> r == folder
  {
    if c.Some? && Given(c.value.appFolder) then c.value.appFolder.value
    else if c.Some? && Given(c.value.appProject) then paths.dirname(c.value.appProject.value)
    else folder
  }

  /** The container OS: the configured one, else `Linux`. */
  function InferOs(c: Option<DebugConfig>): (r: String)
    ensures RunConfig(c).Some? && Given(RunConfig(c).value.os) ==> r == RunConfig(c).value.os.value
    ensures !(RunConfig(c).Some? && Given(RunConfig(c).value.os)) ==> r == "Linux"
  {
    var run := RunConfig(c);
    if run.Some? && Given(run.value.os) then run.value.os.value else "Linux"
  }

  /**
   * `inferContext`: the configured context; else the application folder when
   * it is the workspace folder (no solution folder); else its parent.
   */
  function InferContext(folder: String, resolvedAppFolder: String, c: Option<DebugConfig>, paths: PathOps): (r: String)
    ensures BuildConfig(c).Some? && Given(BuildConfig(c).value.context) ==> r == BuildConfig(c).value.context.value
    ensures !(BuildConfig(c).Some? && Given(BuildConfig(c).value.context)) ==>
      r == if paths.normalize(resolvedAppFolder) == paths.normalize(folder) then resolvedAppFolder
           else paths.dirname(resolvedAppFolder)
  {
    var build := BuildConfig(c);
    if build.Some? && Given(build.value.context) then build.value.context.value
    else if paths.normalize(resolvedAppFolder) == paths.normalize(folder) then resolvedAppFolder
    else paths.dirname(resolvedAppFolder)
  }

  datatype BuildOptions = BuildOptions(
    args: Option<map<String, String>>, context: String, dockerfile: String,
    labels: Labels, tag: String, target: String)

  /** `inferBuildOptions`. A configured Dockerfile is resolved twice, the default one once. */
  function InferBuildOptions(folder: String, c: Option<DebugConfig>, appFolder: String, resolvedAppFolder: String,
                             appName: String, paths: PathOps): (r: BuildOptions)
    ensures r.context == ResolveFolderPath(InferContext(folder, resolvedAppFolder, c, paths), folder)
    ensures r.args == if BuildConfig(c).Some? then BuildConfig(c).value.args else None
    ensures BuildConfig(c).None? ==>
      r.dockerfile == ResolveFolderPath(paths.join(appFolder, "Dockerfile"), folder)
      && r.labels == DefaultLabels && r.tag == ToLower(appName) + ":dev" && r.target == "base"
    ensures BuildConfig(c).Some? ==>
      var b := BuildConfig(c).value;
      r.dockerfile == (if Given(b.dockerfile) then ResolveFolderPath(ResolveFolderPath(b.dockerfile.value, folder), folder)
                       else ResolveFolderPath(paths.join(appFolder, "Dockerfile"), folder))
      && r.labels == (if b.labels.Some? then b.labels.value else DefaultLabels)
      && r.tag == (if Given(b.tag) then b.tag.value else ToLower(appName) + ":dev")
      && r.target == (if Given(b.target) then b.target.value else "base")
  {
    var build := BuildConfig(c);
    var context := InferContext(folder, resolvedAppFolder, c, paths);
    var dockerfile :=
      if build.Some? && Given(build.value.dockerfile) then ResolveFolderPath(build.value.dockerfile.value, folder)
      else paths.join(appFolder, "Dockerfile");
    BuildOptions(
      if build.Some? then build.value.args else None,
      ResolveFolderPath(context, folder),
      ResolveFolderPath(dockerfile, folder),
      if build.Some? && build.value.labels.Some? then build.value.labels.value else DefaultLabels,
      if build.Some? && Given(build.value.tag) then build.value.tag.value else ToLower(appName) + ":dev",
      if build.Some? && Given(build.value.target) then build.value.target.value else "base")
  }

  /** The default image tag names the application in lower case. */
  lemma DefaultTagIsLowerCase(folder: String, c: Option<DebugConfig>, appFolder: String, resolvedAppFolder: String,
                              appName: String, paths: PathOps)
    requires BuildConfig(c).None? || !Given(BuildConfig(c).value.tag)
    ensures var tag := InferBuildOptions(folder, c, appFolder, resolvedAppFolder, appName, paths).tag;
            EndsWith(tag, ":dev") && |tag| == |appName| + 4
            && forall k :: 0 <= k < |appName| ==> !('A' <= tag[k] <= 'Z') && LowerChar(tag[k]) == LowerChar(appName[k])
  {
    var tag := InferBuildOptions(folder, c, appFolder, resolvedAppFolder, appName, paths).tag;
    assert tag[|tag| - 4..] == ":dev";
  }

  datatype RunOptions = RunOptions(
    containerName: String, env: Option<map<String, String>>, envFiles: Option<seq<String>>,
    labels: Labels, os: String)

  function ResolveAll(files: seq<String>, folder: String): (r: seq<String>)
    ensures |r| == |files| && forall k :: 0 <= k < |files| ==> r[k] == ResolveFolderPath(files[k], folder)
  {
    if files == [] then [] else [ResolveFolderPath(files[0], folder)] + ResolveAll(files[1..], folder)
  }

  /** `inferRunOptions`: an env-file list, even an empty one, has each file resolved. */
  function InferRunOptions(folder: String, c: Option<DebugConfig>, appName: String, os: String): (r: RunOptions)
    ensures r.os == os
    ensures RunConfig(c).None? ==>
      r == RunOptions(appName + "-dev", None, None, DefaultLabels, os)
    ensures RunConfig(c).Some? ==>
      var run := RunConfig(c).value;
      r.containerName == (if Given(run.containerName) then run.containerName.value else appName + "-dev")
      && r.env == run.env
      && (run.envFiles.None? <==> r.envFiles.None?)
      && (run.envFiles.Some? ==>
            |r.envFiles.value| == |run.envFiles.value|
            && forall k :: 0 <= k < |run.envFiles.value| ==>
                 r.envFiles.value[k] == ResolveFolderPath(run.envFiles.value[k], folder))
      && r.labels == (if run.labels.Some? then run.labels.value else DefaultLabels)
  {
    var run := RunConfig(c);
    RunOptions(
      if run.Some? && Given(run.value.containerName) then run.value.containerName.value else appName + "-dev",
      if run.Some? then run.value.env else None,
      if run.Some? && run.value.envFiles.Some? then Some(ResolveAll(run.value.envFiles.value, folder)) else None,
      if run.Some? && run.value.labels.Some? then run.value.labels.value else DefaultLabels,
      os)
  }

  // ---------------------------------------------------------------------------
  // The launch configuration.

  /** What `prepareForLaunch` returns. */
  datatype LaunchResult = LaunchResult(
    browserUrl: Option<String>, program: String, programArgs: seq<String>, programCwd: String,
    pipeCwd: String, pipeProgram: String, pipeArgs: seq<String>, debuggerPath: String)

  datatype BrowserCommand = BrowserCommand(command: String, args: Option<String>)

  datatype LaunchBrowser =
    | BrowserDisabled
    | BrowserEnabled(args: String, windows: BrowserCommand, osx: BrowserCommand, linux: BrowserCommand)

  /** `createLaunchBrowserConfiguration`: enabled exactly when there is a browser URL. */
  function CreateLaunchBrowserConfiguration(result: LaunchResult): (r: LaunchBrowser)
    ensures r.BrowserEnabled? <==> Given(result.browserUrl)
    ensures r.BrowserEnabled? ==>
      r.args == result.browserUrl.value
      && r.windows == BrowserCommand("cmd.exe", Some("/C start " + result.browserUrl.value))
      && r.osx == BrowserCommand("open", None) && r.linux == BrowserCommand("xdg-open", None)
  {
    if Given(result.browserUrl) then
      var url := result.browserUrl.value;
      BrowserEnabled(url, BrowserCommand("cmd.exe", Some("/C start " + url)),
                     BrowserCommand("open", None), BrowserCommand("xdg-open", None))
    else BrowserDisabled
  }

  datatype PipeTransport = PipeTransport(
    pipeCwd: String, pipeProgram: String, pipeArgs: seq<String>, debuggerPath: String, quoteArgs: bool)

  datatype CoreClrConfiguration = CoreClrConfiguration(
    name: String, configType: String, request: String, program: String, args: String, cwd: String,
    launchBrowser: LaunchBrowser, pipeTransport: PipeTransport, preLaunchTask: Option<String>,
    sourceFileMap: map<String, String>)

  /**
   * `createConfiguration`: a `coreclr` launch configuration that runs the
   * program through the pipe transport, with the program arguments joined by
   * spaces and argument quoting switched off.
   */
  function CreateConfiguration(c: DebugConfig, appFolder: String, result: LaunchResult, paths: PathOps): (r: CoreClrConfiguration)
    ensures r.name == c.name && r.configType == "coreclr" && r.request == "launch"
    ensures r.program == result.program && r.cwd == result.programCwd
    ensures r.pipeTransport == PipeTransport(result.pipeCwd, result.pipeProgram, result.pipeArgs, result.debuggerPath, false)
    ensures r.launchBrowser.BrowserEnabled? <==> Given(result.browserUrl)
    ensures r.preLaunchTask == c.preLaunchTask
    ensures r.sourceFileMap == map["/app/Views" := paths.join(appFolder, "Views")]
    ensures r.args == Join(result.programArgs, " ")
  {
    CoreClrConfiguration(c.name, "coreclr", "launch", result.program, Join(result.programArgs, " "),
      result.programCwd, CreateLaunchBrowserConfiguration(result),
      PipeTransport(result.pipeCwd, result.pipeProgram, result.pipeArgs, result.debuggerPath, false),
      c.preLaunchTask, map["/app/Views" := paths.join(appFolder, "Views")])
  }

  predicate NoChar(s: String, c: char) {
    forall k :: 0 <= k < |s| ==> s[k] != c
  }

  /** The joined program arguments split back into the arguments when none holds a space. */
  lemma ConfigurationArgsSplit(c: DebugConfig, appFolder: String, result: LaunchResult, paths: PathOps)
    requires |result.programArgs| >= 1
    requires forall k :: 0 <= k < |result.programArgs| ==> NoChar(result.programArgs[k], ' ')
    ensures Split(CreateConfiguration(c, appFolder, result, paths).args, " ") == result.programArgs
  {
    SplitJoin(result.programArgs, ' ');
  }
}
