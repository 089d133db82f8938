/**
 * The diagnostics `Advisor` of the C# extension (versions 1.15.2 and 1.17.1
 * share it): a package-restore counter and a file count per project, which
 * gate document and project validation; and the pure mappers of the provider.
 */
module Diagnostics {
  import opened Wrappers
  import opened JsString

  /** A project of a project-information event; `sourceFiles` is the length of `SourceFiles`, `None` when absent. */
  datatype ProjectFiles = ProjectFiles(path: String, sourceFiles: Option<nat>)

  /** A project-information event: its `DotNetProject` and `MsBuildProject` parts. */
  datatype ProjectInformation = ProjectInformation(dotNetProject: Option<ProjectFiles>, msBuildProject: Option<ProjectFiles>)

  /** The total of the recorded counts, in key order. */
  function Total(keys: seq<String>, counts: map<String, nat>): nat
    requires forall k :: 0 <= k < |keys| ==> keys[k] in counts
  {
    if keys == [] then 0 else counts[keys[0]] + Total(keys[1..], counts)
  }

  /** The keys other than `path`, in the order they had. */
  function Without(keys: seq<String>, path: String): (r: seq<String>)
    ensures forall p :: p in r <==> p in keys && p != path
    ensures |r| <= |keys|
  {
    if keys == [] then []
    else Without(keys[..|keys| - 1], path) + (if keys[|keys| - 1] != path then [keys[|keys| - 1]] else [])
  }

  /** Dropping a key keeps the others distinct. */
  lemma {:induction false} WithoutDistinct(keys: seq<String>, path: String)
    requires forall i, j :: 0 <= i < j < |keys| ==> keys[i] != keys[j]
    ensures forall i, j :: 0 <= i < j < |Without(keys, path)| ==> Without(keys, path)[i] != Without(keys, path)[j]
  {
    if keys != [] {
      var init := keys[..|keys| - 1];
      var last := keys[|keys| - 1];
      WithoutDistinct(init, path);
      assert last !in init by {
        forall k | 0 <= k < |init| ensures init[k] != last {
          assert init[k] == keys[k];
        }
      }
    }
  }

  /** The paths an event names with a `SourceFiles` list, DotNet first. */
  function CountedProjects(info: ProjectInformation): seq<ProjectFiles> {
    (if info.dotNetProject.Some? && info.dotNetProject.value.sourceFiles.Some? then [info.dotNetProject.value] else [])
    + (if info.msBuildProject.Some? && info.msBuildProject.value.sourceFiles.Some? then [info.msBuildProject.value] else [])
  }

  lemma CountedPaths(info: ProjectInformation)
    ensures (set k | 0 <= k < |CountedProjects(info)| :: CountedProjects(info)[k].path)
         == (if info.dotNetProject.Some? && info.dotNetProject.value.sourceFiles.Some? then {info.dotNetProject.value.path} else {})
          + (if info.msBuildProject.Some? && info.msBuildProject.value.sourceFiles.Some? then {info.msBuildProject.value.path} else {})
  {
    var projects := CountedProjects(info);
    var removed := set k | 0 <= k < |projects| :: projects[k].path;
    if |projects| == 2 {
      assert removed == {projects[0].path, projects[1].path};
    } else if |projects| == 1 {
      assert removed == {projects[0].path};
    } else {
      assert removed == {};
    }
  }

  /** The counts after recording every counted project of the event, in order. */
  function Recorded(counts: map<String, nat>, projects: seq<ProjectFiles>): map<String, nat>
    requires forall k :: 0 <= k < |projects| ==> projects[k].sourceFiles.Some?
    decreases |projects|
  {
    if projects == [] then counts
    else Recorded(counts[projects[0].path := projects[0].sourceFiles.value], projects[1..])
  }

  lemma RecordedOne(counts: map<String, nat>, projects: seq<ProjectFiles>)
    requires |projects| == 1 && projects[0].sourceFiles.Some?
    ensures Recorded(counts, projects) == counts[projects[0].path := projects[0].sourceFiles.value]
  {
    assert projects[1..] == [];
  }

  class Advisor {
    var packageRestoreCounter: int
    /** The keys of `_projectSourceFileCounts` in insertion order, the order `for..in` visits them. */
    var keys: seq<String>
    var counts: map<String, nat>

    ghost predicate Valid()
      reads this
    {
      (forall i, j :: 0 <= i < j < |keys| ==> keys[i] != keys[j]) &&
      (forall k :: 0 <= k < |keys| ==> keys[k] in counts) &&
      (forall p :: p in counts ==> p in keys)
    }

    constructor ()
      ensures Valid() && packageRestoreCounter == 0 && counts == map[] && keys == []
    {
      packageRestoreCounter := 0;
      keys := [];
      counts := map[];
    }

    /** A restore is in progress while more restores have begun than ended. */
    predicate IsRestoringPackages()
      reads this
    {
      packageRestoreCounter > 0
    }

    method OnBeforePackageRestore()
      modifies this
      ensures packageRestoreCounter == old(packageRestoreCounter) + 1
      ensures keys == old(keys) && counts == old(counts)
    {
      packageRestoreCounter := packageRestoreCounter + 1;
    }

    method OnPackageRestore()
      modifies this
      ensures packageRestoreCounter == old(packageRestoreCounter) - 1
      ensures keys == old(keys) && counts == old(counts)
    {
      packageRestoreCounter := packageRestoreCounter - 1;
    }

    /** `_updateProjectFileCount`: a new key goes last; an existing key keeps its place. */
    method UpdateProjectFileCount(path: String, fileCount: nat)
      requires Valid()
      modifies this
      ensures Valid()
      ensures counts == old(counts)[path := fileCount]
      ensures keys == if path in old(counts) then old(keys) else old(keys) + [path]
      ensures packageRestoreCounter == old(packageRestoreCounter)
    {
      if path !in counts {
        assert path !in keys;
        keys := keys + [path];
      }
      counts := counts[path := fileCount];
      assert forall k :: 0 <= k < |keys| ==> keys[k] in counts by {
        forall k | 0 <= k < |keys| ensures keys[k] in counts {
          if keys[k] != path { assert keys[k] in old(keys); }
        }
      }
    }

    /** `_addOrUpdateProjectFileCount`, for project added and project changed events. */
    method AddOrUpdateProjectFileCount(info: ProjectInformation)
      requires Valid()
      modifies this
      ensures Valid()
      ensures counts == Recorded(old(counts), CountedProjects(info))
      ensures packageRestoreCounter == old(packageRestoreCounter)
    {
      var projects := CountedProjects(info);
      ghost var start := counts;
      if info.dotNetProject.Some? && info.dotNetProject.value.sourceFiles.Some? {
        UpdateProjectFileCount(info.dotNetProject.value.path, info.dotNetProject.value.sourceFiles.value);
      }
      if info.msBuildProject.Some? && info.msBuildProject.value.sourceFiles.Some? {
        UpdateProjectFileCount(info.msBuildProject.value.path, info.msBuildProject.value.sourceFiles.value);
      }
      if |projects| == 2 {
        assert projects[1..][1..] == [];
        RecordedOne(start[projects[0].path := projects[0].sourceFiles.value], projects[1..]);
      } else if |projects| == 1 {
        RecordedOne(start, projects);
      }
    }

    /** `delete this._projectSourceFileCounts[path]`. */
    method DeleteProjectFileCount(path: String)
      requires Valid()
      modifies this
      ensures Valid()
      ensures counts == old(counts) - {path}
      ensures keys == Without(old(keys), path)
      ensures forall p :: p in keys <==> p in old(keys) && p != path
      ensures packageRestoreCounter == old(packageRestoreCounter)
    {
      var ks := keys;
      var remaining: seq<String> := [];
      var i := 0;
      while i < |ks|
        invariant 0 <= i <= |ks|
        invariant remaining == Without(ks[..i], path)
      {
        assert ks[..i + 1][..i] == ks[..i];
        if ks[i] != path {
          remaining := remaining + [ks[i]];
        }
        i := i + 1;
      }
      assert ks[..i] == ks;
      WithoutDistinct(ks, path);
      ghost var cs := counts - {path};
      assert forall k :: 0 <= k < |remaining| ==> remaining[k] in cs by {
        forall k | 0 <= k < |remaining| ensures remaining[k] in cs {
          assert remaining[k] in remaining;
        }
      }
      keys := remaining;
      counts := counts - {path};
    }

    /** `_removeProjectFileCount`, for project removed events: those paths go, no other key changes. */
    method RemoveProjectFileCount(info: ProjectInformation)
      requires Valid()
      modifies this
      ensures Valid()
      ensures counts == old(counts) - set k | 0 <= k < |CountedProjects(info)| :: CountedProjects(info)[k].path
      ensures packageRestoreCounter == old(packageRestoreCounter)
    {
      CountedPaths(info);
      if info.dotNetProject.Some? && info.dotNetProject.value.sourceFiles.Some? {
        DeleteProjectFileCount(info.dotNetProject.value.path);
      }
      if info.msBuildProject.Some? && info.msBuildProject.value.sourceFiles.Some? {
        DeleteProjectFileCount(info.msBuildProject.value.path);
      }
    }

    /** The sum of the recorded file counts. */
    ghost function TotalFiles(): nat
      reads this
      requires Valid()
    {
      Total(keys, counts)
    }

    /** `_isHugeProject`: the counts add up to more than 1000; the loop stops at the first prefix that does. */
    method IsHugeProject() returns (r: bool)
      requires Valid()
      ensures r <==> TotalFiles() > 1000
    {
      var sourceFileCount := 0;
      var i := 0;
      while i < |keys|
        invariant 0 <= i <= |keys|
        invariant sourceFileCount + Total(keys[i..], counts) == Total(keys, counts)
        invariant sourceFileCount <= 1000
      {
        assert keys[i..][1..] == keys[i + 1..];
        sourceFileCount := sourceFileCount + counts[keys[i]];
        if sourceFileCount > 1000 {
          assert Total(keys, counts) >= sourceFileCount;
          return true;
        }
        i := i + 1;
      }
      return false;
    }

    /** `shouldValidateFiles`; whether the server is running is a parameter. */
    method ShouldValidateFiles(serverRunning: bool) returns (r: bool)
      ensures r <==> serverRunning && packageRestoreCounter <= 0
    {
      return serverRunning && !IsRestoringPackages();
    }

    /** `shouldValidateProject`: the files gate and a project that is not huge. */
    method ShouldValidateProject(serverRunning: bool) returns (r: bool)
      requires Valid()
      ensures r <==> serverRunning && packageRestoreCounter <= 0 && TotalFiles() <= 1000
    {
      if !serverRunning || IsRestoringPackages() {
        return false;
      }
      var huge := IsHugeProject();
      return !huge;
    }
  }

  /** The severity a quick fix's log level maps to. */
  datatype Severity = Error | Warning | Information

  /** `_asDiagnosticSeverity`: error and warning in any (ASCII) case; everything else is information. */
  function AsDiagnosticSeverity(logLevel: String): (r: Severity)
    ensures r == Error <==> ToLower(logLevel) == "error"
    ensures r == Warning <==> ToLower(logLevel) == "warning"
    ensures r == Information <==> ToLower(logLevel) != "error" && ToLower(logLevel) != "warning"
  {
    var level := ToLower(logLevel);
    if level == "error" then Error else if level == "warning" then Warning else Information
  }

  predicate FirstPlusAt(s: String, i: nat)
    requires i < |s|
  {
    s[i] == '+' && forall k :: 0 <= k < i ==> s[k] != '+'
  }

  /** `_asProjectLabel`: the text after the first `+`, or the whole name. */
  function AsProjectLabel(projectName: String): (r: String)
    ensures !Contains(projectName, "+") ==> r == projectName
    ensures Contains(projectName, "+") ==>
              exists i :: 0 <= i < |projectName| && FirstPlusAt(projectName, i) && r == projectName[i + 1..]
  {
    var idx := IndexOf(projectName, "+");
    IndexOfChar(projectName, '+');
    if idx < 0 then
      projectName[0..]
    else
      assert FirstPlusAt(projectName, idx);
      projectName[idx + 1..]
  }

  /** `shouldIgnoreDocument` (1.17.1): not C#, or neither a file nor a virtual C# document. */
  function ShouldIgnoreDocument(languageId: String, scheme: String, isVirtualCSharpDocument: bool): (r: bool)
    ensures r <==> languageId != "csharp" || (scheme != "file" && !isVirtualCSharpDocument)
  {
    if languageId != "csharp" then true
    else if scheme != "file" && !isVirtualCSharpDocument then true
    else false
  }

  /** The document filter of 1.15.2: only C# file-scheme documents are validated. */
  function ShouldValidateDocumentLegacy(languageId: String, scheme: String): (r: bool)
    ensures r <==> languageId == "csharp" && scheme == "file"
  {
    languageId == "csharp" && scheme == "file"
  }

  /** A virtual C# document is ignored by 1.15.2 and validated by 1.17.1. */
  lemma VirtualDocumentsAdded(scheme: String)
    requires scheme != "file"
    ensures !ShouldValidateDocumentLegacy("csharp", scheme)
    ensures !ShouldIgnoreDocument("csharp", scheme, true)
  {
  }
}
