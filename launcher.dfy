/**
 * OmniSharp launch-target discovery and launch decisions (`launcher.js` of the
 * 1.17.1, 1.16.2 and 1.15.2 extensions).
 *
 * `resourcesToLaunchTargets` buckets the found files by workspace folder (in the
 * order folders are first seen), derives the targets of each folder from the
 * kinds of file it holds, and sorts the targets by directory. What the host
 * computes for a file (its workspace folder, Node's `path.basename` and
 * `path.dirname`, and `asRelativePath` of the directory) is carried by the file.
 */
module Launcher {
  import opened Wrappers
  import opened JsString
  import opened JsValue
  import Options
  import Platform

  datatype Kind = Solution | ProjectJson | Folder | Csx | Cake

  datatype LaunchTarget = LaunchTarget(labelText: String, description: String, target: String, directory: String, kind: Kind)

  /**
   * A found file: its file-system path, the index of its workspace folder if
   * any, its base name, its directory and that directory relative to the workspace.
   */
  datatype Resource = Resource(fsPath: String, folder: Option<nat>, baseName: String, dirName: String, relativeDir: String)

  /** A workspace folder: its file-system path and base name. */
  datatype WorkspaceFolder = WorkspaceFolder(fsPath: String, baseName: String)

  // ---------------------------------------------------------------------------
  // File kinds: case-insensitive tests on the end of the path.

  predicate IsLineTerminator(c: char) {
    c == '\n' || c == '\r' || c == '\U{2028}' || c == '\U{2029}'
  }

  /** `p` ends with the lower-case text `suffix`, ignoring the case of ASCII letters in `p`. */
  predicate HasSuffix(p: String, suffix: String)
    decreases |suffix|
  {
    if suffix == [] then true
    else if p == [] then false
    else LowerChar(p[|p| - 1]) == suffix[|suffix| - 1] && HasSuffix(p[..|p| - 1], suffix[..|suffix| - 1])
  }

  /** The file tests are exclusive: a path is at most one of a project, a solution and a `.cs` file. */
  predicate IsCSharpProject(p: String)
    ensures IsCSharpProject(p) ==> !IsSolution(p) && !IsCs(p)
  {
    HasSuffix(p, ".csproj")
  }

  predicate IsSolution(p: String)
    ensures IsSolution(p) ==> !IsCs(p) && !IsCsx(p) && !IsCake(p)
  {
    HasSuffix(p, ".sln")
  }

  predicate IsCsx(p: String) { HasSuffix(p, ".csx") }
  predicate IsCake(p: String) { HasSuffix(p, ".cake") }
  predicate IsCs(p: String) { HasSuffix(p, ".cs") }

  /**
   * `/\project.json$/i`: in a regular expression without the unicode flag `\p`
   * is a plain `p` and `.` is any character but a line terminator.
   */
  predicate IsProjectJson(p: String)
    ensures IsProjectJson(p) ==> !IsCSharpProject(p) && !IsSolution(p) && !IsCs(p)
  {
    |p| >= 12 && HasSuffix(p[..|p| - 5], "project") && !IsLineTerminator(p[|p| - 5]) && HasSuffix(p, "json")
  }

  /** The file tests of `resourcesToLaunchTargets`. */
  datatype Pattern = CsProjFile | SlnFile | ProjectJsonFile | CsxFile | CakeFile | CsFile

  predicate Matches(pat: Pattern, p: String) {
    match pat
    case CsProjFile => IsCSharpProject(p)
    case SlnFile => IsSolution(p)
    case ProjectJsonFile => IsProjectJson(p)
    case CsxFile => IsCsx(p)
    case CakeFile => IsCake(p)
    case CsFile => IsCs(p)
  }

  // ---------------------------------------------------------------------------
  // Targets of one workspace folder.

  predicate Any(rs: seq<Resource>, pat: Pattern) {
    exists i :: 0 <= i < |rs| && Matches(pat, rs[i].fsPath)
  }

  /** A project.json directly in the workspace folder. */
  predicate AtRoot(r: Resource, w: WorkspaceFolder) {
    IsProjectJson(r.fsPath) && r.dirName == w.fsPath
  }

  predicate ProjectJsonAtRoot(rs: seq<Resource>, w: WorkspaceFolder) {
    exists i :: 0 <= i < |rs| && AtRoot(rs[i], w)
  }

  function SolutionTarget(r: Resource): LaunchTarget {
    LaunchTarget(r.baseName, r.relativeDir, r.fsPath, r.dirName, Solution)
  }

  function ProjectJsonTarget(r: Resource): LaunchTarget {
    LaunchTarget(r.baseName, r.relativeDir, r.dirName, r.dirName, ProjectJson)
  }

  /** `[t]` when `c` holds, else nothing. */
  function When(c: bool, t: LaunchTarget): seq<LaunchTarget> {
    if c then [t] else []
  }

  /** The targets pushed while visiting one file. */
  function PerResource(r: Resource, hasCsProj: bool): seq<LaunchTarget> {
    When(hasCsProj && IsSolution(r.fsPath), SolutionTarget(r)) + When(IsProjectJson(r.fsPath), ProjectJsonTarget(r))
  }

  /** The targets pushed while visiting the files of a folder in order. */
  function ResourceTargets(rs: seq<Resource>, hasCsProj: bool): seq<LaunchTarget>
  {
    if rs == [] then []
    else ResourceTargets(rs[..|rs| - 1], hasCsProj) + PerResource(rs[|rs| - 1], hasCsProj)
  }

  /** The flags the visit of a folder's files sets. */
  datatype Flags = Flags(hasSlnFile: bool, hasProjectJson: bool, hasProjectJsonAtRoot: bool,
                         hasCsx: bool, hasCake: bool, hasCs: bool)

  const NoFlags := Flags(false, false, false, false, false, false)

  /** The flags after visiting one more file. */
  function NextFlags(f: Flags, r: Resource, hasCsProj: bool, w: WorkspaceFolder): Flags {
    Flags(f.hasSlnFile || (hasCsProj && IsSolution(r.fsPath)),
          f.hasProjectJson || IsProjectJson(r.fsPath),
          f.hasProjectJsonAtRoot || AtRoot(r, w),
          f.hasCsx || IsCsx(r.fsPath),
          f.hasCake || IsCake(r.fsPath),
          f.hasCs || IsCs(r.fsPath))
  }

  /** The flags after visiting the files of a folder in order. */
  function ScanFlags(rs: seq<Resource>, hasCsProj: bool, w: WorkspaceFolder): Flags {
    if rs == [] then NoFlags
    else NextFlags(ScanFlags(rs[..|rs| - 1], hasCsProj, w), rs[|rs| - 1], hasCsProj, w)
  }

  /** Each flag records whether some file of the folder has the kind it is named after. */
  lemma {:induction false} ScanFlagsMeaning(rs: seq<Resource>, hasCsProj: bool, w: WorkspaceFolder)
    ensures var f := ScanFlags(rs, hasCsProj, w);
      f.hasSlnFile == (hasCsProj && Any(rs, SlnFile))
      && f.hasProjectJson == Any(rs, ProjectJsonFile)
      && f.hasProjectJsonAtRoot == ProjectJsonAtRoot(rs, w)
      && f.hasCsx == Any(rs, CsxFile) && f.hasCake == Any(rs, CakeFile) && f.hasCs == Any(rs, CsFile)
  {
    if rs != [] {
      var init, r := rs[..|rs| - 1], rs[|rs| - 1];
      ScanFlagsMeaning(init, hasCsProj, w);
      assert rs == init + [r];
      AnySnoc(init, r);
      AtRootSnoc(init, r, w);
    }
  }

  lemma AnySnoc(rs: seq<Resource>, r: Resource)
    ensures forall pat :: Any(rs + [r], pat) == (Any(rs, pat) || Matches(pat, r.fsPath))
  {
    var xs := rs + [r];
    assert xs[|rs|] == r;
    assert forall i :: 0 <= i < |rs| ==> xs[i] == rs[i];
  }

  lemma AtRootSnoc(rs: seq<Resource>, r: Resource, w: WorkspaceFolder)
    ensures ProjectJsonAtRoot(rs + [r], w) == (ProjectJsonAtRoot(rs, w) || AtRoot(r, w))
  {
    var xs := rs + [r];
    assert xs[|rs|] == r;
    assert forall i :: 0 <= i < |rs| ==> xs[i] == rs[i];
  }

  function FolderTarget(w: WorkspaceFolder): LaunchTarget {
    LaunchTarget(w.baseName, "", w.fsPath, w.fsPath, Folder)
  }

  function CsxTarget(w: WorkspaceFolder): LaunchTarget {
    LaunchTarget("CSX", w.baseName, w.fsPath, w.fsPath, Csx)
  }

  function CakeTarget(w: WorkspaceFolder): LaunchTarget {
    LaunchTarget("Cake", w.baseName, w.fsPath, w.fsPath, Cake)
  }

  /** The folder rule after the visit: projects but no solution, or project.json files but none at the root. */
  predicate FolderRule(hasCsProj: bool, f: Flags) {
    (hasCsProj && !f.hasSlnFile) || (f.hasProjectJson && !f.hasProjectJsonAtRoot)
  }

  /** The loose `.cs` rule of 1.17.1 and 1.16.2 after the visit. */
  predicate LooseRule(hasCsProj: bool, f: Flags, looseCs: bool) {
    looseCs && f.hasCs && !f.hasSlnFile && !hasCsProj && !f.hasProjectJson && !f.hasProjectJsonAtRoot
  }

  /**
   * The targets added after the visit: the folder itself, one CSX and one Cake
   * target, and, when `looseCs`, the folder for loose `.cs` files.
   */
  function ExtraTargets(hasCsProj: bool, f: Flags, w: WorkspaceFolder, looseCs: bool): seq<LaunchTarget> {
    When(FolderRule(hasCsProj, f), FolderTarget(w)) + When(f.hasCsx, CsxTarget(w))
    + When(f.hasCake, CakeTarget(w)) + When(LooseRule(hasCsProj, f, looseCs), FolderTarget(w))
  }

  /** The targets of one workspace folder. */
  function FolderTargets(rs: seq<Resource>, w: WorkspaceFolder, looseCs: bool): seq<LaunchTarget> {
    var hasCsProj := Any(rs, CsProjFile);
    ResourceTargets(rs, hasCsProj) + ExtraTargets(hasCsProj, ScanFlags(rs, hasCsProj, w), w, looseCs)
  }

  /** The visit of one file: the solution and project.json pushes and the flag updates. */
  method VisitResource(r: Resource, hasCsProjFiles: bool, w: WorkspaceFolder, f: Flags)
    returns (pushed: seq<LaunchTarget>, next: Flags)
    ensures pushed == PerResource(r, hasCsProjFiles)
    ensures next == NextFlags(f, r, hasCsProjFiles, w)
  {
    var hasSlnFile, hasProjectJson, hasProjectJsonAtRoot, hasCsx, hasCake, hasCs :=
      f.hasSlnFile, f.hasProjectJson, f.hasProjectJsonAtRoot, f.hasCsx, f.hasCake, f.hasCs;
    pushed := [];
    if hasCsProjFiles && IsSolution(r.fsPath) {
      hasSlnFile := true;
      pushed := pushed + [SolutionTarget(r)];
    }
    if IsProjectJson(r.fsPath) {
      var dirname := r.dirName;
      hasProjectJson := true;
      hasProjectJsonAtRoot := hasProjectJsonAtRoot || dirname == w.fsPath;
      pushed := pushed + [ProjectJsonTarget(r)];
    }
    if !hasCsx && IsCsx(r.fsPath) {
      hasCsx := true;
    }
    if !hasCake && IsCake(r.fsPath) {
      hasCake := true;
    }
    if !hasCs && IsCs(r.fsPath) {
      hasCs := true;
    }
    next := Flags(hasSlnFile, hasProjectJson, hasProjectJsonAtRoot, hasCsx, hasCake, hasCs);
  }

  /** The visit of one folder's files in order. */
  method VisitResources(rs: seq<Resource>, hasCsProjFiles: bool, w: WorkspaceFolder)
    returns (targets: seq<LaunchTarget>, flags: Flags)
    ensures targets == ResourceTargets(rs, hasCsProjFiles)
    ensures flags == ScanFlags(rs, hasCsProjFiles, w)
  {
    flags := NoFlags;
    targets := [];
    for i := 0 to |rs|
      invariant targets == ResourceTargets(rs[..i], hasCsProjFiles)
      invariant flags == ScanFlags(rs[..i], hasCsProjFiles, w)
    {
      assert rs[..i + 1][..i] == rs[..i];
      var pushed;
      pushed, flags := VisitResource(rs[i], hasCsProjFiles, w, flags);
      targets := targets + pushed;
    }
    assert rs[..|rs|] == rs;
  }

  /** The additions after the visit, in the order `resourcesToLaunchTargets` makes them. */
  method AddExtraTargets(visited: seq<LaunchTarget>, hasCsProjFiles: bool, f: Flags, w: WorkspaceFolder, looseCs: bool)
    returns (targets: seq<LaunchTarget>)
    ensures targets == visited + ExtraTargets(hasCsProjFiles, f, w, looseCs)
  {
    targets := visited;
    if (hasCsProjFiles && !f.hasSlnFile) || (f.hasProjectJson && !f.hasProjectJsonAtRoot) {
      targets := targets + [FolderTarget(w)];
    }
    assert targets == visited + When(FolderRule(hasCsProjFiles, f), FolderTarget(w));
    ghost var t1 := targets;
    if f.hasCsx {
      targets := targets + [CsxTarget(w)];
    }
    assert targets == t1 + When(f.hasCsx, CsxTarget(w));
    ghost var t2 := targets;
    if f.hasCake {
      targets := targets + [CakeTarget(w)];
    }
    assert targets == t2 + When(f.hasCake, CakeTarget(w));
    ghost var t3 := targets;
    if looseCs && f.hasCs && !f.hasSlnFile && !hasCsProjFiles && !f.hasProjectJson && !f.hasProjectJsonAtRoot {
      targets := targets + [FolderTarget(w)];
    }
    assert targets == t3 + When(LooseRule(hasCsProjFiles, f, looseCs), FolderTarget(w));
    ghost var a, b, c := When(FolderRule(hasCsProjFiles, f), FolderTarget(w)), When(f.hasCsx, CsxTarget(w)), When(f.hasCake, CakeTarget(w));
    SeqAssoc(visited, a, b);
    SeqAssoc(visited, a + b, c);
    SeqAssoc(visited, a + b + c, When(LooseRule(hasCsProjFiles, f, looseCs), FolderTarget(w)));
  }

  /** The per-folder step of `resourcesToLaunchTargets`: the file targets, then the folder, CSX and Cake targets. */
  method CollectFolderTargets(rs: seq<Resource>, w: WorkspaceFolder, looseCs: bool)
    returns (targets: seq<LaunchTarget>)
    ensures targets == FolderTargets(rs, w, looseCs)
  {
    var hasCsProjFiles := exists k :: 0 <= k < |rs| && IsCSharpProject(rs[k].fsPath);
    assert hasCsProjFiles == Any(rs, CsProjFile);
    var visited, f := VisitResources(rs, hasCsProjFiles, w);
    targets := AddExtraTargets(visited, hasCsProjFiles, f, w, looseCs);
  }

  /** The folder itself is a target when it has projects but no solution, or project.json files but none at its root. */
  predicate FolderCondition(rs: seq<Resource>, w: WorkspaceFolder) {
    (Any(rs, CsProjFile) && !Any(rs, SlnFile)) || (Any(rs, ProjectJsonFile) && !ProjectJsonAtRoot(rs, w))
  }

  /** Loose `.cs` files make the folder a target when it has no solution, project or project.json. */
  predicate LooseCsCondition(rs: seq<Resource>) {
    Any(rs, CsFile) && !Any(rs, CsProjFile) && !Any(rs, ProjectJsonFile)
  }

  // ---------------------------------------------------------------------------
  // Properties of the per-folder rules.

  function CountKind(ts: seq<LaunchTarget>, k: Kind): nat {
    if ts == [] then 0 else CountKind(ts[..|ts| - 1], k) + (if ts[|ts| - 1].kind == k then 1 else 0)
  }

  lemma {:induction false} CountKindConcat(a: seq<LaunchTarget>, b: seq<LaunchTarget>)
    ensures forall k :: CountKind(a + b, k) == CountKind(a, k) + CountKind(b, k)
    decreases |b|
  {
    if b == [] {
      assert a + b == a;
    } else {
      assert (a + b)[..|a + b| - 1] == a + b[..|b| - 1];
      CountKindConcat(a, b[..|b| - 1]);
    }
  }

  /** The number of files that match `pat`. */
  function CountWhere(rs: seq<Resource>, pat: Pattern): nat {
    if rs == [] then 0 else CountWhere(rs[..|rs| - 1], pat) + (if Matches(pat, rs[|rs| - 1].fsPath) then 1 else 0)
  }

  lemma CountWhen(c: bool, t: LaunchTarget)
    ensures forall k :: CountKind(When(c, t), k) == (if c && t.kind == k then 1 else 0)
  {
    assert [t][..0] == [];
  }

  /** The files of each kind that the visit of a folder pushes. */
  function ResourceKindCount(rs: seq<Resource>, hasCsProj: bool, k: Kind): nat {
    match k
    case Solution => if hasCsProj then CountWhere(rs, SlnFile) else 0
    case ProjectJson => CountWhere(rs, ProjectJsonFile)
    case _ => 0
  }

  /** The targets of kind `k` that visiting one file pushes. */
  function FileKindCount(r: Resource, hasCsProj: bool, k: Kind): nat {
    match k
    case Solution => if hasCsProj && IsSolution(r.fsPath) then 1 else 0
    case ProjectJson => if IsProjectJson(r.fsPath) then 1 else 0
    case _ => 0
  }

  /** Visiting one file pushes a solution target for a solution file (when the folder has a project) and one for a project.json. */
  lemma PerResourceCount(r: Resource, hasCsProj: bool, k: Kind)
    ensures CountKind(PerResource(r, hasCsProj), k) == FileKindCount(r, hasCsProj, k)
  {
    CountKindConcat(When(hasCsProj && IsSolution(r.fsPath), SolutionTarget(r)), When(IsProjectJson(r.fsPath), ProjectJsonTarget(r)));
    CountWhen(hasCsProj && IsSolution(r.fsPath), SolutionTarget(r));
    CountWhen(IsProjectJson(r.fsPath), ProjectJsonTarget(r));
  }

  lemma ResourceKindCountSnoc(rs: seq<Resource>, hasCsProj: bool, k: Kind)
    requires rs != []
    ensures ResourceKindCount(rs, hasCsProj, k)
      == ResourceKindCount(rs[..|rs| - 1], hasCsProj, k) + FileKindCount(rs[|rs| - 1], hasCsProj, k)
  { }

  lemma {:induction false} ResourceTargetKind(rs: seq<Resource>, hasCsProj: bool, k: Kind)
    ensures CountKind(ResourceTargets(rs, hasCsProj), k) == ResourceKindCount(rs, hasCsProj, k)
  {
    if rs != [] {
      var init, r := rs[..|rs| - 1], rs[|rs| - 1];
      ResourceTargetKind(init, hasCsProj, k);
      CountKindConcat(ResourceTargets(init, hasCsProj), PerResource(r, hasCsProj));
      PerResourceCount(r, hasCsProj, k);
      ResourceKindCountSnoc(rs, hasCsProj, k);
    }
  }

  /** Visiting files yields one solution target per solution file (when the folder has a project) and one per project.json. */
  lemma ResourceTargetKinds(rs: seq<Resource>, hasCsProj: bool)
    ensures CountKind(ResourceTargets(rs, hasCsProj), Solution) == (if hasCsProj then CountWhere(rs, SlnFile) else 0)
    ensures CountKind(ResourceTargets(rs, hasCsProj), ProjectJson) == CountWhere(rs, ProjectJsonFile)
    ensures CountKind(ResourceTargets(rs, hasCsProj), Folder) == 0
    ensures CountKind(ResourceTargets(rs, hasCsProj), Csx) == 0
    ensures CountKind(ResourceTargets(rs, hasCsProj), Cake) == 0
  {
    ResourceTargetKind(rs, hasCsProj, Solution);
    ResourceTargetKind(rs, hasCsProj, ProjectJson);
    ResourceTargetKind(rs, hasCsProj, Folder);
    ResourceTargetKind(rs, hasCsProj, Csx);
    ResourceTargetKind(rs, hasCsProj, Cake);
  }

  lemma ExtraTargetCounts(hasCsProj: bool, f: Flags, w: WorkspaceFolder, looseCs: bool)
    ensures var ts := ExtraTargets(hasCsProj, f, w, looseCs);
      CountKind(ts, Solution) == 0 && CountKind(ts, ProjectJson) == 0
      && CountKind(ts, Folder) == (if FolderRule(hasCsProj, f) || LooseRule(hasCsProj, f, looseCs) then 1 else 0)
      && CountKind(ts, Csx) == (if f.hasCsx then 1 else 0)
      && CountKind(ts, Cake) == (if f.hasCake then 1 else 0)
  {
    ExtraTargetCount(hasCsProj, f, w, looseCs, Solution);
    ExtraTargetCount(hasCsProj, f, w, looseCs, ProjectJson);
    ExtraTargetCount(hasCsProj, f, w, looseCs, Folder);
    ExtraTargetCount(hasCsProj, f, w, looseCs, Csx);
    ExtraTargetCount(hasCsProj, f, w, looseCs, Cake);
  }

  /** The number of targets of one kind added after the visit. */
  lemma ExtraTargetCount(hasCsProj: bool, f: Flags, w: WorkspaceFolder, looseCs: bool, k: Kind)
    ensures CountKind(ExtraTargets(hasCsProj, f, w, looseCs), k)
      == (if FolderRule(hasCsProj, f) && k == Folder then 1 else 0) + (if f.hasCsx && k == Csx then 1 else 0)
         + (if f.hasCake && k == Cake then 1 else 0) + (if LooseRule(hasCsProj, f, looseCs) && k == Folder then 1 else 0)
  {
    var b := When(FolderRule(hasCsProj, f), FolderTarget(w));
    var c := When(f.hasCsx, CsxTarget(w));
    var d := When(f.hasCake, CakeTarget(w));
    var e := When(LooseRule(hasCsProj, f, looseCs), FolderTarget(w));
    CountFour(b, c, d, e, k);
    CountWhenAt(FolderRule(hasCsProj, f), FolderTarget(w), k);
    CountWhenAt(f.hasCsx, CsxTarget(w), k);
    CountWhenAt(f.hasCake, CakeTarget(w), k);
    CountWhenAt(LooseRule(hasCsProj, f, looseCs), FolderTarget(w), k);
  }

  lemma CountWhenAt(c: bool, t: LaunchTarget, k: Kind)
    ensures CountKind(When(c, t), k) == (if c && t.kind == k then 1 else 0)
  {
    CountWhen(c, t);
  }

  lemma CountFour(b: seq<LaunchTarget>, c: seq<LaunchTarget>, d: seq<LaunchTarget>, e: seq<LaunchTarget>, k: Kind)
    ensures CountKind(b + c + d + e, k) == CountKind(b, k) + CountKind(c, k) + CountKind(d, k) + CountKind(e, k)
  {
    CountKindConcat(b, c);
    CountKindConcat(b + c, d);
    CountKindConcat(b + c + d, e);
  }

  /**
   * A folder yields one solution target per solution file when it has a project,
   * one target per project.json, at most one folder target (for the folder rule
   * or the loose `.cs` rule), and one CSX and one Cake target when such files exist.
   */
  lemma FolderTargetCounts(rs: seq<Resource>, w: WorkspaceFolder, looseCs: bool)
    ensures CountKind(FolderTargets(rs, w, looseCs), Solution)
         == (if Any(rs, CsProjFile) then CountWhere(rs, SlnFile) else 0)
    ensures CountKind(FolderTargets(rs, w, looseCs), ProjectJson) == CountWhere(rs, ProjectJsonFile)
    ensures CountKind(FolderTargets(rs, w, looseCs), Folder)
         == (if FolderCondition(rs, w) || (looseCs && LooseCsCondition(rs)) then 1 else 0)
    ensures CountKind(FolderTargets(rs, w, looseCs), Csx) == (if Any(rs, CsxFile) then 1 else 0)
    ensures CountKind(FolderTargets(rs, w, looseCs), Cake) == (if Any(rs, CakeFile) then 1 else 0)
  {
    var hasCsProj := Any(rs, CsProjFile);
    var f := ScanFlags(rs, hasCsProj, w);
    ScanFlagsMeaning(rs, hasCsProj, w);
    ResourceTargetKinds(rs, hasCsProj);
    ExtraTargetCounts(hasCsProj, f, w, looseCs);
    var ts, ex := ResourceTargets(rs, hasCsProj), ExtraTargets(hasCsProj, f, w, looseCs);
    assert FolderTargets(rs, w, looseCs) == ts + ex;
    CountKindConcat(ts, ex);
    AtRootIsProjectJson(rs, w);
  }

  lemma AtRootIsProjectJson(rs: seq<Resource>, w: WorkspaceFolder)
    ensures ProjectJsonAtRoot(rs, w) ==> Any(rs, ProjectJsonFile)
  {
    if ProjectJsonAtRoot(rs, w) {
      var i :| 0 <= i < |rs| && AtRoot(rs[i], w);
      assert Matches(ProjectJsonFile, rs[i].fsPath);
    }
  }

  /** Each project.json file gives a target at its own directory. */
  lemma {:induction false} ProjectJsonGivesTarget(rs: seq<Resource>, hasCsProj: bool, i: nat)
    requires i < |rs| && IsProjectJson(rs[i].fsPath)
    ensures ProjectJsonTarget(rs[i]) in ResourceTargets(rs, hasCsProj)
    decreases |rs|
  {
    if i < |rs| - 1 {
      assert rs[..|rs| - 1][i] == rs[i];
      ProjectJsonGivesTarget(rs[..|rs| - 1], hasCsProj, i);
    }
  }

  // ---------------------------------------------------------------------------
  // Bucketing by workspace folder and the whole computation.

  /** The workspace folders in the order their first file appears (the insertion order of the bucket map). */
  function FolderOrder(rs: seq<Resource>): (o: seq<nat>)
    ensures forall k :: k in o <==> exists i :: 0 <= i < |rs| && rs[i].folder == Some(k)
    ensures forall a, b :: 0 <= a < b < |o| ==> o[a] != o[b]
  {
    if rs == [] then []
    else
      var o := FolderOrder(rs[..|rs| - 1]);
      var r := rs[|rs| - 1];
      assert forall i :: 0 <= i < |rs| - 1 ==> rs[..|rs| - 1][i] == rs[i];
      if r.folder.Some? && r.folder.value !in o then o + [r.folder.value] else o
  }

  /** The files of folder `k`, in input order. */
  function Bucket(rs: seq<Resource>, k: nat): (b: seq<Resource>)
    ensures |b| > 0 ==> exists i :: 0 <= i < |rs| && rs[i].folder == Some(k)
  {
    if rs == [] then []
    else
      assert forall i :: 0 <= i < |rs| - 1 ==> rs[..|rs| - 1][i] == rs[i];
      Bucket(rs[..|rs| - 1], k) + (if rs[|rs| - 1].folder == Some(k) then [rs[|rs| - 1]] else [])
  }

  predicate FoldersInRange(rs: seq<Resource>, folders: seq<WorkspaceFolder>) {
    forall i :: 0 <= i < |rs| && rs[i].folder.Some? ==> rs[i].folder.value < |folders|
  }

  predicate AllBelow(order: seq<nat>, n: nat) {
    forall i :: 0 <= i < |order| ==> order[i] < n
  }

  function AllTargets(order: seq<nat>, rs: seq<Resource>, folders: seq<WorkspaceFolder>, looseCs: bool): seq<LaunchTarget>
    requires AllBelow(order, |folders|)
  {
    if order == [] then []
    else
      var k := order[|order| - 1];
      AllTargets(order[..|order| - 1], rs, folders, looseCs) + FolderTargets(Bucket(rs, k), folders[k], looseCs)
  }

  /** `resourcesToLaunchTargets`: no targets for a non-array input; otherwise every folder's targets, sorted by directory. */
  function LaunchTargets(resources: Option<seq<Resource>>, folders: seq<WorkspaceFolder>, looseCs: bool): (r: seq<LaunchTarget>)
    requires resources.Some? ==> FoldersInRange(resources.value, folders)
    ensures resources.None? ==> r == []
    ensures SortedByDirectory(r)
  {
    if resources.None? then []
    else
      OrderInRange(resources.value, folders);
      SortByDirectory(AllTargets(FolderOrder(resources.value), resources.value, folders, looseCs))
  }

  lemma OrderInRange(rs: seq<Resource>, folders: seq<WorkspaceFolder>)
    requires FoldersInRange(rs, folders)
    ensures AllBelow(FolderOrder(rs), |folders|)
  {
    var o := FolderOrder(rs);
    forall i | 0 <= i < |o|
      ensures o[i] < |folders|
    {
      assert o[i] in o;
    }
  }

  /** The bucket map of `resourcesToLaunchTargets`: each folder's files, keyed in first-seen order. */
  method BucketByFolder(rs: seq<Resource>) returns (order: seq<nat>, buckets: map<nat, seq<Resource>>)
    ensures order == FolderOrder(rs)
    ensures forall k :: k in buckets <==> k in order
    ensures forall k :: k in buckets ==> buckets[k] == Bucket(rs, k)
  {
    order, buckets := [], map[];
    var i := 0;
    while i < |rs|
      invariant 0 <= i <= |rs|
      invariant order == FolderOrder(rs[..i])
      invariant BucketsHold(rs[..i], order, buckets)
    {
      var r := rs[i];
      ghost var prev := rs[..i];
      assert rs[..i + 1] == prev + [r];
      ghost var before, seen := buckets, order;
      if r.folder.Some? {
        var idx := r.folder.value;
        if idx in buckets {
          buckets := buckets[idx := buckets[idx] + [r]];
        } else {
          order := order + [idx];
          buckets := buckets[idx := [r]];
        }
      }
      BucketsGrow(prev, r, seen, before, order, buckets);
      i := i + 1;
    }
    assert rs[..|rs|] == rs;
  }

  /** One more file: its folder is added to the order when new. */
  lemma OrderStep(prev: seq<Resource>, r: Resource)
    ensures var o := FolderOrder(prev);
      FolderOrder(prev + [r]) == if r.folder.Some? && r.folder.value !in o then o + [r.folder.value] else o
  {
    assert (prev + [r])[..|prev|] == prev;
  }

  /** `order` lists exactly the keys of `buckets`, and each bucket holds its folder's files of `rs`. */
  ghost predicate BucketsHold(rs: seq<Resource>, order: seq<nat>, buckets: map<nat, seq<Resource>>) {
    (forall k :: k in buckets <==> k in order) &&
    (forall k :: k in buckets ==> buckets[k] == Bucket(rs, k))
  }

  /** One more file: the order and the map of buckets, updated as `resourcesToLaunchTargets` does, still hold. */
  lemma BucketsGrow(prev: seq<Resource>, r: Resource, seen: seq<nat>, before: map<nat, seq<Resource>>,
                    order: seq<nat>, after: map<nat, seq<Resource>>)
    requires seen == FolderOrder(prev) && BucketsHold(prev, seen, before)
    requires after == if r.folder.None? then before
        else if r.folder.value in before then before[r.folder.value := before[r.folder.value] + [r]]
        else before[r.folder.value := [r]]
    requires order == if r.folder.None? || r.folder.value in before then seen else seen + [r.folder.value]
    ensures order == FolderOrder(prev + [r]) && BucketsHold(prev + [r], order, after)
  {
    OrderStep(prev, r);
    forall k | k in after
      ensures after[k] == Bucket(prev + [r], k)
    {
      BucketOneMore(prev, r, k);
      if k !in before {
        assert |Bucket(prev, k)| == 0;
      }
    }
  }

  /** One more file: it joins the bucket of its own folder only. */
  lemma BucketOneMore(prev: seq<Resource>, r: Resource, k: nat)
    ensures Bucket(prev + [r], k) == Bucket(prev, k) + (if r.folder == Some(k) then [r] else [])
  {
    assert (prev + [r])[..|prev|] == prev;
  }

  /** The targets of the folders in `order`, one folder after another. */
  method ConcatFolderTargets(order: seq<nat>, buckets: map<nat, seq<Resource>>, rs: seq<Resource>,
                             folders: seq<WorkspaceFolder>, looseCs: bool)
    returns (unsorted: seq<LaunchTarget>)
    requires AllBelow(order, |folders|)
    requires forall k :: k in order ==> k in buckets && buckets[k] == Bucket(rs, k)
    ensures unsorted == AllTargets(order, rs, folders, looseCs)
  {
    unsorted := [];
    for j := 0 to |order|
      invariant unsorted == AllTargets(order[..j], rs, folders, looseCs)
    {
      assert order[..j + 1][..j] == order[..j];
      var k := order[j];
      assert k in order;
      var folderTargets := CollectFolderTargets(buckets[k], folders[k], looseCs);
      unsorted := unsorted + folderTargets;
    }
    assert order[..|order|] == order;
  }

  method ResourcesToLaunchTargets(resources: Option<seq<Resource>>, folders: seq<WorkspaceFolder>, looseCs: bool)
    returns (targets: seq<LaunchTarget>)
    requires resources.Some? ==> FoldersInRange(resources.value, folders)
    ensures targets == LaunchTargets(resources, folders, looseCs)
  {
    if resources.None? {
      return [];
    }
    var rs := resources.value;
    var order, buckets := BucketByFolder(rs);
    OrderInRange(rs, folders);
    var unsorted := ConcatFolderTargets(order, buckets, rs, folders, looseCs);
    targets := SortByDirectory(unsorted);
  }

  /** A file outside every workspace folder changes nothing. */
  lemma FileOutsideFoldersIgnored(rs: seq<Resource>, r: Resource, folders: seq<WorkspaceFolder>, looseCs: bool)
    requires FoldersInRange(rs, folders) && r.folder.None?
    ensures FoldersInRange(rs + [r], folders)
    ensures LaunchTargets(Some(rs + [r]), folders, looseCs) == LaunchTargets(Some(rs), folders, looseCs)
  {
    var xs := rs + [r];
    assert xs[..|xs| - 1] == rs;
    assert FolderOrder(xs) == FolderOrder(rs);
    OrderInRange(rs, folders);
    AllTargetsSameBuckets(FolderOrder(rs), xs, rs, folders, looseCs);
  }

  lemma {:induction false} AllTargetsSameBuckets(order: seq<nat>, xs: seq<Resource>, rs: seq<Resource>,
                                                 folders: seq<WorkspaceFolder>, looseCs: bool)
    requires AllBelow(order, |folders|)
    requires |xs| > 0 && xs[..|xs| - 1] == rs && xs[|xs| - 1].folder.None?
    ensures AllTargets(order, xs, folders, looseCs) == AllTargets(order, rs, folders, looseCs)
    decreases |order|
  {
    if order != [] {
      var k := order[|order| - 1];
      assert Bucket(xs, k) == Bucket(rs, k);
      AllTargetsSameBuckets(order[..|order| - 1], xs, rs, folders, looseCs);
    }
  }

  // ---------------------------------------------------------------------------
  // Sorting by directory. The comparison is code-point order, standing in for `localeCompare`.

  predicate SortedByDirectory(ts: seq<LaunchTarget>) {
    forall i :: 0 < i < |ts| ==> LexLe(ts[i - 1].directory, ts[i].directory)
  }

  /** The targets with directory `d`, in the order given. */
  function WithDirectory(ts: seq<LaunchTarget>, d: String): seq<LaunchTarget> {
    if ts == [] then []
    else (if ts[0].directory == d then [ts[0]] else []) + WithDirectory(ts[1..], d)
  }

  lemma {:induction false} WithDirectoryAppend(a: seq<LaunchTarget>, b: seq<LaunchTarget>, d: String)
    ensures WithDirectory(a + b, d) == WithDirectory(a, d) + WithDirectory(b, d)
  {
    if a != [] {
      assert (a + b)[1..] == a[1..] + b;
      WithDirectoryAppend(a[1..], b, d);
    } else {
      assert a + b == b;
    }
  }

  /**
   * One step of the insertion sort: `t` goes after every target whose
   * directory is not greater than its own.
   */
  function Insert(t: LaunchTarget, ts: seq<LaunchTarget>): (r: seq<LaunchTarget>)
    requires SortedByDirectory(ts)
    ensures SortedByDirectory(r)
    ensures multiset(r) == multiset(ts) + multiset{t}
    ensures |r| == |ts| + 1
    ensures |r| > 0 && (r[0] == t || (|ts| > 0 && r[0] == ts[0]))
  {
    if ts == [] then [t]
    else if !LexLe(ts[0].directory, t.directory) then
      LexLeTotal(t.directory, ts[0].directory);
      SortedCons(t, ts);
      [t] + ts
    else
      SortedTail(ts);
      var rest := Insert(t, ts[1..]);
      assert ts == [ts[0]] + ts[1..];
      SortedCons(ts[0], rest);
      [ts[0]] + rest
  }

  /** No target of a sorted list whose head sorts after `d` has directory `d`. */
  lemma {:induction false} NoneWithDirectory(ts: seq<LaunchTarget>, d: String)
    requires SortedByDirectory(ts) && ts != [] && !LexLe(ts[0].directory, d)
    ensures WithDirectory(ts, d) == []
  {
    LexLeReflexive(d);
    SortedTail(ts);
    if |ts| > 1 {
      if LexLe(ts[1].directory, d) {
        LexLeTransitive(ts[0].directory, ts[1].directory, d);
      }
      NoneWithDirectory(ts[1..], d);
    }
  }

  lemma WithDirectoryCons(x: LaunchTarget, xs: seq<LaunchTarget>, d: String)
    ensures WithDirectory([x] + xs, d) == (if x.directory == d then [x] else []) + WithDirectory(xs, d)
  {
    assert ([x] + xs)[1..] == xs;
  }

  /** Inserting `t` puts it after every target of the list with the same directory. */
  lemma {:induction false} InsertKeepsTies(t: LaunchTarget, ts: seq<LaunchTarget>, d: String)
    requires SortedByDirectory(ts)
    ensures WithDirectory(Insert(t, ts), d) == WithDirectory(ts, d) + (if t.directory == d then [t] else [])
  {
    if ts == [] {
      assert Insert(t, ts) == [t];
      WithDirectoryCons(t, [], d);
    } else if !LexLe(ts[0].directory, t.directory) {
      InsertInFront(t, ts, d);
    } else {
      SortedTail(ts);
      InsertKeepsTies(t, ts[1..], d);
      InsertBehind(t, ts);
      ConsKeepsTies(ts[0], Insert(t, ts[1..]), ts[1..], if t.directory == d then [t] else [], d);
      assert [ts[0]] + ts[1..] == ts;
    }
  }

  lemma InsertInFront(t: LaunchTarget, ts: seq<LaunchTarget>, d: String)
    requires SortedByDirectory(ts) && ts != [] && !LexLe(ts[0].directory, t.directory)
    ensures WithDirectory(Insert(t, ts), d) == WithDirectory(ts, d) + (if t.directory == d then [t] else [])
  {
    assert Insert(t, ts) == [t] + ts;
    WithDirectoryCons(t, ts, d);
    if t.directory == d {
      NoneWithDirectory(ts, d);
    }
  }

  lemma InsertBehind(t: LaunchTarget, ts: seq<LaunchTarget>)
    requires SortedByDirectory(ts) && ts != [] && LexLe(ts[0].directory, t.directory)
    ensures SortedByDirectory(ts[1..])
    ensures Insert(t, ts) == [ts[0]] + Insert(t, ts[1..])
  {
    SortedTail(ts);
  }

  /** Putting the same target in front of two lists keeps an equation between their ties. */
  lemma ConsKeepsTies(x: LaunchTarget, rest: seq<LaunchTarget>, xs: seq<LaunchTarget>, tail: seq<LaunchTarget>, d: String)
    requires WithDirectory(rest, d) == WithDirectory(xs, d) + tail
    ensures WithDirectory([x] + rest, d) == WithDirectory([x] + xs, d) + tail
  {
    WithDirectoryCons(x, rest, d);
    WithDirectoryCons(x, xs, d);
  }

  lemma SortedTail(ts: seq<LaunchTarget>)
    requires SortedByDirectory(ts) && ts != []
    ensures SortedByDirectory(ts[1..])
    ensures |ts| > 1 ==> LexLe(ts[0].directory, ts[1].directory)
  {
    var u := ts[1..];
    forall i | 0 < i < |u|
      ensures LexLe(u[i - 1].directory, u[i].directory)
    {
      assert u[i - 1] == ts[i] && u[i] == ts[i + 1];
    }
  }

  lemma SortedCons(x: LaunchTarget, rest: seq<LaunchTarget>)
    requires SortedByDirectory(rest)
    requires rest != [] ==> LexLe(x.directory, rest[0].directory)
    ensures SortedByDirectory([x] + rest)
  {
    var r := [x] + rest;
    forall i | 0 < i < |r|
      ensures LexLe(r[i - 1].directory, r[i].directory)
    {
      if i > 1 {
        assert r[i - 1] == rest[i - 2] && r[i] == rest[i - 1];
      }
    }
  }

  /**
   * `targets.sort(byDirectory)`: the targets ordered by directory, as a
   * permutation, and stable: the targets that share a directory keep the
   * order they had.
   */
  function SortByDirectory(ts: seq<LaunchTarget>): (r: seq<LaunchTarget>)
    ensures SortedByDirectory(r)
    ensures multiset(r) == multiset(ts)
    ensures |r| == |ts|
    ensures forall d :: WithDirectory(r, d) == WithDirectory(ts, d)
  {
    if ts == [] then []
    else
      var init := ts[..|ts| - 1];
      var last := ts[|ts| - 1];
      assert ts == init + [last];
      var sorted := SortByDirectory(init);
      var r := Insert(last, sorted);
      assert forall d :: WithDirectory(r, d) == WithDirectory(ts, d) by {
        forall d ensures WithDirectory(r, d) == WithDirectory(ts, d) {
          InsertKeepsTies(last, sorted, d);
          WithDirectoryAppend(init, [last], d);
        }
      }
      r
  }

  /** Two targets with equal directories, the first before the second, come out in that order. */
  lemma TiesKeepOrder(ts: seq<LaunchTarget>, a: LaunchTarget, b: LaunchTarget)
    requires a.directory == b.directory
    ensures WithDirectory(SortByDirectory([a, b]), a.directory) == [a, b]
    ensures WithDirectory(SortByDirectory(ts + [a, b]), a.directory) == WithDirectory(ts, a.directory) + [a, b]
  {
    var d := a.directory;
    assert WithDirectory([b], d) == [b];
    assert WithDirectory([a, b], d) == [a, b] by {
      assert [a, b][1..] == [b];
    }
    WithDirectoryAppend(ts, [a, b], d);
  }

  // ---------------------------------------------------------------------------
  // `getConfigurationValue` and the formatting arguments.

  /** A `[csharp]`-scoped value that is neither null nor undefined wins over the global setting. */
  function GetConfigurationValue(global: Options.Section, csharp: map<String, Value>, path: String, default: Value): (r: Value)
    ensures path in csharp && !csharp[path].Undefined? && !csharp[path].Null? ==> r == csharp[path]
    ensures !(path in csharp && !csharp[path].Undefined? && !csharp[path].Null?) ==> r == Options.Get(global, path, default)
  {
    if path in csharp && !csharp[path].Undefined? && !csharp[path].Null? then csharp[path]
    else Options.Get(global, path, default)
  }

  /** The three formatting arguments `launch` pushes when the editor formatting settings are used. */
  function FormattingArgs(global: Options.Section, csharp: map<String, Value>): (r: seq<String>)
    ensures |r| == 3
    ensures r[0] == "formattingOptions:useTabs=" + (if Truthy(GetConfigurationValue(global, csharp, "editor.insertSpaces", Bool(true))) then "false" else "true")
    ensures r[1] == "formattingOptions:tabSize=" + Display(GetConfigurationValue(global, csharp, "editor.tabSize", Num(4)))
    ensures r[2] == "formattingOptions:indentationSize=" + Display(GetConfigurationValue(global, csharp, "editor.tabSize", Num(4)))
  {
    var useTabs := !Truthy(GetConfigurationValue(global, csharp, "editor.insertSpaces", Bool(true)));
    var tabSize := Display(GetConfigurationValue(global, csharp, "editor.tabSize", Num(4)));
    ["formattingOptions:useTabs=" + (if useTabs then "true" else "false"),
     "formattingOptions:tabSize=" + tabSize,
     "formattingOptions:indentationSize=" + tabSize]
  }

  /** With nothing configured, OmniSharp is told to use spaces and a tab size of 4. */
  lemma DefaultFormatting()
    ensures FormattingArgs(Options.Empty, map[]) ==
      ["formattingOptions:useTabs=false", "formattingOptions:tabSize=4", "formattingOptions:indentationSize=4"]
  {
    assert "0123456789"[4] == '4';
    assert Display(Num(4)) == "4";
    assert GetConfigurationValue(Options.Empty, map[], "editor.insertSpaces", Bool(true)) == Bool(true);
    assert GetConfigurationValue(Options.Empty, map[], "editor.tabSize", Num(4)) == Num(4);
    assert "formattingOptions:useTabs=" + "false" == "formattingOptions:useTabs=false";
    assert "formattingOptions:tabSize=" + "4" == "formattingOptions:tabSize=4";
    assert "formattingOptions:indentationSize=" + "4" == "formattingOptions:indentationSize=4";
  }

  /** The arguments after `launch` has pushed the formatting options onto them. */
  function LaunchArgs(args: seq<String>, useEditorFormattingSettings: Value, global: Options.Section, csharp: map<String, Value>): (r: seq<String>)
    ensures Truthy(useEditorFormattingSettings) ==> r == args + FormattingArgs(global, csharp)
    ensures !Truthy(useEditorFormattingSettings) ==> r == args
  {
    if Truthy(useEditorFormattingSettings) then args + FormattingArgs(global, csharp) else args
  }

  // ---------------------------------------------------------------------------
  // The Windows command line.

  /**
   * `/^[^"].* .*[^"]/`: a first character other than a quote, later a space,
   * and after it a character other than a quote, with no line terminator in between.
   */
  predicate HasSpaceWithoutQuotes(arg: String) {
    |arg| > 0 && arg[0] != '"'
    && (exists j, k :: 1 <= j < k < |arg| && arg[j] == ' ' && arg[k] != '"'
          && (forall m :: 1 <= m < j ==> !IsLineTerminator(arg[m]))
          && (forall m :: j < m < k ==> !IsLineTerminator(arg[m])))
  }

  /** `escapeIfNeeded`: quote an argument with an unquoted space, else escape its first `&`. */
  function EscapeIfNeeded(arg: String): (r: String)
    ensures HasSpaceWithoutQuotes(arg) ==> r == "\"" + arg + "\""
    ensures !HasSpaceWithoutQuotes(arg) ==> r == ReplaceFirst(arg, "&", "^&")
  {
    if HasSpaceWithoutQuotes(arg) then "\"" + arg + "\"" else ReplaceFirst(arg, "&", "^&")
  }

  function MapEscape(args: seq<String>): (r: seq<String>)
    ensures |r| == |args| && forall i :: 0 <= i < |args| ==> r[i] == EscapeIfNeeded(args[i])
  {
    if args == [] then [] else [EscapeIfNeeded(args[0])] + MapEscape(args[1..])
  }

  /** The single argument given to `cmd`: `/s /c "<escaped launch path and arguments>"`. */
  function WindowsCommandLine(launchPath: String, args: seq<String>): (r: String)
    ensures StartsWith(r, "/s /c \"") && EndsWith(r, "\"")
  {
    var line := "/s /c \"" + Join(MapEscape([launchPath] + args), " ") + "\"";
    assert line[..7] == "/s /c \"";
    line
  }

  /** An argument without spaces or ampersands is passed to `cmd` unchanged. */
  lemma PlainArgumentUnescaped(arg: String)
    requires PlainArgument(arg)
    ensures EscapeIfNeeded(arg) == arg
  {
    IndexOfChar(arg, '&');
  }

  /** An argument with neither a space nor an ampersand. */
  predicate PlainArgument(arg: String) {
    forall m :: 0 <= m < |arg| ==> arg[m] != ' ' && arg[m] != '&'
  }

  /**
   * With a launch path and arguments that need no escaping, `cmd` is given
   * them joined by single spaces between `/s /c "` and `"`.
   */
  lemma WindowsCommandLinePlain(launchPath: String, args: seq<String>)
    requires PlainArgument(launchPath) && forall i :: 0 <= i < |args| ==> PlainArgument(args[i])
    ensures WindowsCommandLine(launchPath, args) == "/s /c \"" + Join([launchPath] + args, " ") + "\""
  {
    PlainArgumentUnescaped(launchPath);
    MapEscapePlain(args);
    assert MapEscape([launchPath] + args) == [launchPath] + args by {
      assert ([launchPath] + args)[1..] == args;
    }
  }

  lemma {:induction false} MapEscapePlain(args: seq<String>)
    requires forall i :: 0 <= i < |args| ==> PlainArgument(args[i])
    ensures MapEscape(args) == args
  {
    if args != [] {
      PlainArgumentUnescaped(args[0]);
      MapEscapePlain(args[1..]);
    }
  }

  /** An argument with a space after a first character other than a quote is quoted on the command line. */
  lemma WindowsCommandLineQuotes(launchPath: String, arg: String)
    requires PlainArgument(launchPath)
    requires |arg| > 2 && arg[0] != '"' && arg[1] == ' ' && arg[2] != '"' && !IsLineTerminator(arg[0])
    ensures WindowsCommandLine(launchPath, [arg]) == "/s /c \"" + launchPath + " " + "\"" + arg + "\"" + "\""
  {
    PlainArgumentUnescaped(launchPath);
    assert HasSpaceWithoutQuotes(arg) by {
      assert 1 <= 1 < 2 < |arg| && arg[1] == ' ' && arg[2] != '"';
    }
    var all := [launchPath] + [arg];
    assert MapEscape(all) == [launchPath, "\"" + arg + "\""];
    assert Join([launchPath, "\"" + arg + "\""], " ") == launchPath + " " + ("\"" + arg + "\"");
  }

  // ---------------------------------------------------------------------------
  // The process that is started.

  /** A spawned process: program, argument vector, and the command the result reports. */
  datatype Spawn = Spawn(program: String, argv: seq<String>, command: String)

  datatype LaunchInfo = LaunchInfo(launchPath: String, monoLaunchPath: Option<String>)

  /** `launchInfo.MonoLaunchPath || launchInfo.LaunchPath`. */
  function MonoLaunchPathOrDefault(info: LaunchInfo): (r: String)
    ensures info.monoLaunchPath.Some? && info.monoLaunchPath.value != [] ==> r == info.monoLaunchPath.value
    ensures !(info.monoLaunchPath.Some? && info.monoLaunchPath.value != []) ==> r == info.launchPath
  {
    if info.monoLaunchPath.Some? && info.monoLaunchPath.value != [] then info.monoLaunchPath.value else info.launchPath
  }

  const DebuggerAgent := "--debugger-agent=transport=dt_socket,server=y,address=127.0.0.1:55555"
  const StrictLoader := "--assembly-loader=strict"

  /** `launchNixMono` arguments of 1.17.1: the debugger pair when debugging, the strict loader, the launch path, the arguments. */
  function MonoArgs(launchPath: String, args: seq<String>, useDebugger: bool): (r: seq<String>)
    ensures var n := if useDebugger then 2 else 0;
      |r| == n + 2 + |args| && r[n] == StrictLoader && r[n + 1] == launchPath && r[n + 2..] == args
    ensures useDebugger ==> r[0] == DebuggerAgent && r[1] == "--debug"
  {
    var tail := [StrictLoader, launchPath] + args;
    if useDebugger then [DebuggerAgent, "--debug"] + tail else tail
  }

  /** `launchNixMono` arguments of 1.16.2: with the debugger the strict loader appears twice. */
  function MonoArgsLegacy(launchPath: String, args: seq<String>, useDebugger: bool): (r: seq<String>)
    ensures var n := if useDebugger then 3 else 0;
      |r| == n + 2 + |args| && r[n] == StrictLoader && r[n + 1] == launchPath && r[n + 2..] == args
    ensures useDebugger ==> r[..3] == [DebuggerAgent, "--debug", StrictLoader]
  {
    var tail := [StrictLoader, launchPath] + args;
    if useDebugger then [DebuggerAgent, "--debug", StrictLoader] + tail else tail
  }

  /** `launchNixMono` arguments of 1.15.2: the strict loader, the launch path, the arguments. */
  function MonoArgsOldest(launchPath: String, args: seq<String>): (r: seq<String>)
    ensures |r| == |args| + 2 && r[0] == StrictLoader && r[1] == launchPath && r[2..] == args
  {
    [StrictLoader, launchPath] + args
  }

  /** The strict loader occurs twice in the 1.16.2 debugging arguments and once otherwise (for arguments without it). */
  lemma StrictLoaderCount(launchPath: String, args: seq<String>, useDebugger: bool)
    requires launchPath != StrictLoader && StrictLoader !in args
    ensures multiset(MonoArgsLegacy(launchPath, args, useDebugger))[StrictLoader] == (if useDebugger then 2 else 1)
    ensures multiset(MonoArgs(launchPath, args, useDebugger))[StrictLoader] == 1
  {
    assert DebuggerAgent != StrictLoader;
    assert "--debug" != StrictLoader;
    assert multiset(args)[StrictLoader] == 0;
  }

  /** The global mono found by the resolver of 1.17.1. */
  datatype MonoInfo = MonoInfo(version: String, path: String)

  /** `launch` of 1.17.1: `cmd` on Windows, mono when a global mono was resolved, otherwise the launch path itself. */
  function Launch(args: seq<String>, info: LaunchInfo, platform: Platform.PlatformInformation, options: Options.Options,
                  global: Options.Section, csharp: map<String, Value>, monoInfo: Option<MonoInfo>): (r: Spawn)
    ensures var a := LaunchArgs(args, options.useEditorFormattingSettings, global, csharp);
      if platform.IsWindows() then r == Spawn("cmd", [WindowsCommandLine(info.launchPath, a)], info.launchPath)
      else if monoInfo.Some? then
        r.program == "mono" && r.command == MonoLaunchPathOrDefault(info)
        && r.argv == MonoArgs(r.command, a, Truthy(options.waitForDebugger))
      else r == Spawn(info.launchPath, a, info.launchPath)
  {
    var a := LaunchArgs(args, options.useEditorFormattingSettings, global, csharp);
    if platform.IsWindows() then Spawn("cmd", [WindowsCommandLine(info.launchPath, a)], info.launchPath)
    else if monoInfo.Some? then
      var launchPath := MonoLaunchPathOrDefault(info);
      Spawn("mono", MonoArgs(launchPath, a, Truthy(options.waitForDebugger)), launchPath)
    else Spawn(info.launchPath, a, info.launchPath)
  }

  /** How the 1.16.2 and 1.15.2 `launch` starts OmniSharp. */
  datatype Decision = UseCmd | UseMono(launchPath: String) | UseDirect | Fail(message: String)

  const MonoRequired := "Cannot start OmniSharp because Mono version >=5.8.1 is required."

  /**
   * The 1.16.2 and 1.15.2 launch decision: Windows always uses `cmd`; "always"
   * insists on a valid mono; "auto" uses mono only when it is valid and a mono
   * launch path exists; otherwise OmniSharp is started directly.
   */
  function LegacyDecision(isWindows: bool, useGlobalMono: Value, validMono: bool, info: LaunchInfo): (r: Decision)
    ensures isWindows ==> r == UseCmd
    ensures !isWindows && useGlobalMono == Str("always") ==>
      r == (if validMono then UseMono(MonoLaunchPathOrDefault(info)) else Fail(MonoRequired))
    ensures !isWindows && useGlobalMono != Str("always") ==>
      r == (if useGlobalMono == Str("auto") && validMono && info.monoLaunchPath.Some? && info.monoLaunchPath.value != []
            then UseMono(info.monoLaunchPath.value) else UseDirect)
  {
    if isWindows then UseCmd
    else if useGlobalMono == Str("always") then
      if !validMono then Fail(MonoRequired) else UseMono(MonoLaunchPathOrDefault(info))
    else if useGlobalMono == Str("auto") && validMono && info.monoLaunchPath.Some? && info.monoLaunchPath.value != [] then
      UseMono(info.monoLaunchPath.value)
    else UseDirect
  }

  /** Outside Windows, mono is used exactly when it is valid and asked for (always), or allowed (auto) with a mono launch path. */
  lemma MonoUsedIff(useGlobalMono: Value, validMono: bool, info: LaunchInfo)
    ensures LegacyDecision(false, useGlobalMono, validMono, info).UseMono? <==>
      validMono && (useGlobalMono == Str("always")
        || (useGlobalMono == Str("auto") && info.monoLaunchPath.Some? && info.monoLaunchPath.value != []))
    ensures LegacyDecision(false, useGlobalMono, validMono, info).Fail? <==> useGlobalMono == Str("always") && !validMono
    ensures useGlobalMono == Str("never") ==> LegacyDecision(false, useGlobalMono, validMono, info) == UseDirect
  {
  }

  /** `launch` of 1.16.2. */
  function LaunchLegacy(args: seq<String>, info: LaunchInfo, platform: Platform.PlatformInformation, options: Options.LegacyOptions,
                        global: Options.Section, csharp: map<String, Value>, validMono: bool): (r: Result<Spawn, String>)
    ensures var d := LegacyDecision(platform.IsWindows(), options.useGlobalMono, validMono, info);
      var a := LaunchArgs(args, options.useEditorFormattingSettings, global, csharp);
      (d.Fail? <==> r.Err?)
      && (d.UseCmd? ==> r == Ok(Spawn("cmd", [WindowsCommandLine(info.launchPath, a)], info.launchPath)))
      && (d.UseMono? ==> r == Ok(Spawn("mono", MonoArgsLegacy(d.launchPath, a, Truthy(options.waitForDebugger)), d.launchPath)))
      && (d.UseDirect? ==> r == Ok(Spawn(info.launchPath, a, info.launchPath)))
  {
    var a := LaunchArgs(args, options.useEditorFormattingSettings, global, csharp);
    match LegacyDecision(platform.IsWindows(), options.useGlobalMono, validMono, info)
    case UseCmd => Ok(Spawn("cmd", [WindowsCommandLine(info.launchPath, a)], info.launchPath))
    case UseMono(p) => Ok(Spawn("mono", MonoArgsLegacy(p, a, Truthy(options.waitForDebugger)), p))
    case UseDirect => Ok(Spawn(info.launchPath, a, info.launchPath))
    case Fail(m) => Err(m)
  }

  /** `launch` of 1.15.2: the same decision, with the debugger-free mono arguments. */
  function LaunchOldest(args: seq<String>, info: LaunchInfo, platform: Platform.PlatformInformation, options: Options.LegacyOptions,
                        global: Options.Section, csharp: map<String, Value>, validMono: bool): (r: Result<Spawn, String>)
    ensures var d := LegacyDecision(platform.IsWindows(), options.useGlobalMono, validMono, info);
      var a := LaunchArgs(args, options.useEditorFormattingSettings, global, csharp);
      (d.Fail? <==> r.Err?)
      && (d.UseMono? ==> r == Ok(Spawn("mono", MonoArgsOldest(d.launchPath, a), d.launchPath)))
      && (!d.UseMono? && r.Ok? ==> r == LaunchLegacy(args, info, platform, options, global, csharp, validMono))
  {
    var a := LaunchArgs(args, options.useEditorFormattingSettings, global, csharp);
    match LegacyDecision(platform.IsWindows(), options.useGlobalMono, validMono, info)
    case UseCmd => Ok(Spawn("cmd", [WindowsCommandLine(info.launchPath, a)], info.launchPath))
    case UseMono(p) => Ok(Spawn("mono", MonoArgsOldest(p, a), p))
    case UseDirect => Ok(Spawn(info.launchPath, a, info.launchPath))
    case Fail(m) => Err(m)
  }
}
