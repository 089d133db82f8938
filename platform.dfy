/**
 * Platform detection of the C# extension (version 1.17.1): the os-release
 * parser behind `LinuxDistribution`, and the `PlatformInformation` record.
 */
module Platform {
  import opened Wrappers
  import opened JsString

  const Unknown: String := "unknown"

  /** A Linux distribution read from an os-release file; `idLike` is null until ID_LIKE is seen. */
  datatype LinuxDistribution = LinuxDistribution(name: String, version: String, idLike: Option<seq<String>>)

  const NoDistribution := LinuxDistribution(Unknown, Unknown, None)

  /** `LinuxDistribution.toString`. */
  function DistributionToString(d: LinuxDistribution): (r: String)
    ensures StartsWith(r, "name=" + d.name) && EndsWith(r, ", version=" + d.version)
  {
    "name=" + d.name + ", version=" + d.version
  }

  /** All three keys have been seen, so parsing stops. */
  predicate Complete(d: LinuxDistribution) {
    d.name != Unknown && d.version != Unknown && d.idLike.Some?
  }

  /** A value loses one pair of surrounding double quotes when it is longer than one character. */
  function Unquote(value: String): (r: String)
    ensures |value| > 1 && value[0] == '"' && value[|value| - 1] == '"' ==> r == value[1..|value| - 1]
    ensures !(|value| > 1 && value[0] == '"' && value[|value| - 1] == '"') ==> r == value
  {
    if |value| > 1 && StartsWith(value, "\"") && EndsWith(value, "\"") then
      Substring(value, 1, |value| - 1)
    else value
  }

  /** The effect of one `key=value` line on the distribution being read. */
  function ApplyKey(d: LinuxDistribution, key: String, value: String): LinuxDistribution {
    if key == "ID" then d.(name := value)
    else if key == "VERSION_ID" then d.(version := value)
    else if key == "ID_LIKE" then d.(idLike := Some(Split(value, " ")))
    else d
  }

  /** The trimmed line split at its first `=`, if it has one. */
  function KeyValue(rawLine: String): Option<(String, String)> {
    var line := Trim(rawLine);
    var eq := IndexOf(line, "=");
    if eq >= 0 then Some((Substring(line, 0, eq), Unquote(Substring(line, eq + 1, |line|)))) else None
  }

  /** The lines from `lines` on, read in order until the distribution is complete. */
  function ParseLines(d: LinuxDistribution, lines: seq<String>): (r: LinuxDistribution)
    // lines without `=` are skipped
    ensures (forall k :: 0 <= k < |lines| ==> KeyValue(lines[k]).None?) ==> r == d
    decreases |lines|
  {
    if lines == [] then d
    else
      var kv := KeyValue(lines[0]);
      if kv.None? then ParseLines(d, lines[1..])
      else
        var d' := ApplyKey(d, kv.value.0, kv.value.1);
        if Complete(d') then d' else ParseLines(d', lines[1..])
  }

  /** `LinuxDistribution.FromReleaseInfo(releaseInfo, eol)`. */
  method FromReleaseInfo(releaseInfo: String, eol: String) returns (d: LinuxDistribution)
    requires |eol| > 0
    ensures d == ParseLines(NoDistribution, Split(releaseInfo, eol))
  {
    var lines := Split(releaseInfo, eol);
    d := NoDistribution;
    var i := 0;
    while i < |lines|
      invariant 0 <= i <= |lines|
      invariant ParseLines(d, lines[i..]) == ParseLines(NoDistribution, lines)
    {
      ghost var before := d;
      ParseLinesStep(d, lines, i);
      var kv := ReadLine(lines[i]);
      if kv.Some? {
        d := ApplyKey(d, kv.value.0, kv.value.1);
        if Complete(d) {
          return;
        }
      }
      assert ParseLines(before, lines[i..]) == ParseLines(d, lines[i + 1..]);
      i := i + 1;
    }
  }

  /** The body of the loop up to the update: trim the line and split it at its first `=`. */
  method ReadLine(rawLine: String) returns (kv: Option<(String, String)>)
    ensures kv == KeyValue(rawLine)
  {
    var line := Trim(rawLine);
    var equalsIndex := IndexOf(line, "=");
    if equalsIndex >= 0 {
      var key := Substring(line, 0, equalsIndex);
      var value := Unquote(Substring(line, equalsIndex + 1, |line|));
      KeyValueFound(rawLine, line, equalsIndex);
      kv := Some((key, value));
    } else {
      KeyValueAbsent(rawLine, line);
      kv := None;
    }
  }

  lemma KeyValueFound(rawLine: String, line: String, eq: int)
    requires line == Trim(rawLine) && eq == IndexOf(line, "=") && eq >= 0
    ensures KeyValue(rawLine) == Some((Substring(line, 0, eq), Unquote(Substring(line, eq + 1, |line|))))
  {
  }

  lemma KeyValueAbsent(rawLine: String, line: String)
    requires line == Trim(rawLine) && IndexOf(line, "=") < 0
    ensures KeyValue(rawLine).None?
  {
  }

  /** One line of `ParseLines`. */
  lemma ParseLinesStep(d: LinuxDistribution, lines: seq<String>, i: int)
    requires 0 <= i < |lines|
    ensures var kv := KeyValue(lines[i]);
            ParseLines(d, lines[i..])
            == if kv.None? then ParseLines(d, lines[i + 1..])
               else var d' := ApplyKey(d, kv.value.0, kv.value.1);
                    if Complete(d') then d' else ParseLines(d', lines[i + 1..])
  {
    assert lines[i..][0] == lines[i];
    assert lines[i..][1..] == lines[i + 1..];
  }

  /** A line that mentions none of the three keys leaves the distribution unchanged. */
  predicate Irrelevant(line: String) {
    var kv := KeyValue(line);
    kv.None? || (kv.value.0 != "ID" && kv.value.0 != "VERSION_ID" && kv.value.0 != "ID_LIKE")
  }

  /** With no ID, VERSION_ID or ID_LIKE line the result is `unknown`, `unknown`, null. */
  lemma {:induction false} DefaultsWhenNoKey(lines: seq<String>)
    requires forall k :: 0 <= k < |lines| ==> Irrelevant(lines[k])
    ensures ParseLines(NoDistribution, lines) == NoDistribution
  {
    if lines != [] {
      assert Irrelevant(lines[0]);
      DefaultsWhenNoKey(lines[1..]);
    }
  }

  /** Once a line completes the distribution, the lines after it are not read. */
  lemma {:induction false} StopsWhenComplete(d: LinuxDistribution, line: String, rest: seq<String>)
    requires KeyValue(line).Some?
    requires Complete(ApplyKey(d, KeyValue(line).value.0, KeyValue(line).value.1))
    ensures ParseLines(d, [line] + rest) == ApplyKey(d, KeyValue(line).value.0, KeyValue(line).value.1)
  {
    assert ([line] + rest)[0] == line;
  }

  /** An `ID` line that comes last sets the name to its unquoted value. */
  lemma IdLineSetsName(d: LinuxDistribution, value: String)
    requires !Contains(value, "=") && Trim(value) == value && value != []
    ensures ParseLines(d, ["ID=" + value]) == d.(name := Unquote(value))
  {
    TrimmedEnds(value);
    IdLineKeyValue(value);
    LastLineSetsName(d, "ID=" + value, Unquote(value));
  }

  lemma LastLineSetsName(d: LinuxDistribution, line: String, name: String)
    requires KeyValue(line) == Some(("ID", name))
    ensures ParseLines(d, [line]) == d.(name := name)
  {
    ParseLinesStep(d, [line], 0);
    assert [line][0..] == [line] && [line][1..] == [];
  }

  /** The key and value of an `ID` line. */
  lemma IdLineKeyValue(value: String)
    requires !Contains(value, "=") && value != [] && !IsWhite(value[|value| - 1])
    ensures KeyValue("ID=" + value) == Some(("ID", Unquote(value)))
  {
    var line := "ID=" + value;
    IdLineTrimmed(value);
    IdLineEquals(value);
    IdLineKey(value);
    IdLineValue(value);
    KeyValueFound(line, line, 2);
  }

  lemma IdLineTrimmed(value: String)
    requires value != [] && !IsWhite(value[|value| - 1])
    ensures Trim("ID=" + value) == "ID=" + value
  {
    var line := "ID=" + value;
    assert line[0] == 'I';
    assert line[|line| - 1] == value[|value| - 1];
    TrimKeeps(line);
  }

  lemma IdLineEquals(value: String)
    requires !Contains(value, "=")
    ensures IndexOf("ID=" + value, "=") == 2
  {
    var line := "ID=" + value;
    assert line[2] == '=' && line[0] != '=' && line[1] != '=';
    IndexOfCharFirst(line, '=', 2);
  }

  lemma IdLineKey(value: String)
    ensures Substring("ID=" + value, 0, 2) == "ID"
  {
    var line := "ID=" + value;
    assert Substring(line, 0, 2) == line[..2];
  }

  lemma IdLineValue(value: String)
    ensures Substring("ID=" + value, 3, |"ID=" + value|) == value
  {
    var line := "ID=" + value;
    assert Substring(line, 3, |line|) == line[3..];
  }

  /** `PlatformInformation`: platform, architecture (possibly null) and distribution (possibly null). */
  datatype PlatformInformation = PlatformInformation(platform: String, architecture: Option<String>, distribution: Option<LinuxDistribution>)
  {
    predicate IsWindows() { platform == "win32" }
    predicate IsMacOS() { platform == "darwin" }
    predicate IsLinux() { platform == "linux" }

    /** `isValidPlatformForMono`. */
    function IsValidPlatformForMono(): (r: bool)
      ensures r <==> platform == "linux" || platform == "darwin"
    {
      IsLinux() || IsMacOS()
    }
  }

  /** The text of a part; a null part contributes nothing. */
  function ArchitectureText(a: Option<String>): String {
    if a.Some? then a.value else ""
  }

  function DistributionText(d: Option<LinuxDistribution>): String {
    if d.Some? then DistributionToString(d.value) else ""
  }

  function NonEmpty(parts: seq<String>): (r: seq<String>)
    ensures forall k :: 0 <= k < |r| ==> r[k] != []
  {
    if parts == [] then []
    else if parts[0] == [] then NonEmpty(parts[1..])
    else [parts[0]] + NonEmpty(parts[1..])
  }

  /** One step of `toString`: a non-empty part is appended, after `, ` when text precedes it. */
  function AppendPart(result: String, part: String): String {
    if part == [] then result
    else (if result != [] then result + ", " else result) + part
  }

  lemma {:induction false} NonEmptySnoc(xs: seq<String>, x: String)
    ensures NonEmpty(xs + [x]) == NonEmpty(xs) + (if x == [] then [] else [x])
  {
    if xs != [] {
      assert (xs + [x])[0] == xs[0] && (xs + [x])[1..] == xs[1..] + [x];
      NonEmptySnoc(xs[1..], x);
    }
  }

  lemma {:induction false} JoinSnoc(ys: seq<String>, x: String, sep: String)
    requires ys != []
    ensures Join(ys + [x], sep) == Join(ys, sep) + sep + x
  {
    if |ys| > 1 {
      assert (ys + [x])[0] == ys[0] && (ys + [x])[1..] == ys[1..] + [x];
      JoinSnoc(ys[1..], x, sep);
    } else {
      assert (ys + [x])[1..] == [x];
    }
  }

  lemma JoinOfNonEmpty(ys: seq<String>, sep: String)
    requires forall k :: 0 <= k < |ys| ==> ys[k] != []
    ensures Join(ys, sep) == [] <==> ys == []
  {
    if |ys| > 1 {
      assert |Join(ys, sep)| >= |ys[0]|;
    }
  }

  /** Appending a part to the joined parts is joining the extended parts. */
  lemma AppendPartJoins(xs: seq<String>, x: String)
    ensures AppendPart(Join(NonEmpty(xs), ", "), x) == Join(NonEmpty(xs + [x]), ", ")
  {
    NonEmptySnoc(xs, x);
    JoinOfNonEmpty(NonEmpty(xs), ", ");
    if x != [] && NonEmpty(xs) != [] {
      JoinSnoc(NonEmpty(xs), x, ", ");
    } else if x != [] {
      assert NonEmpty(xs) + [x] == [x];
    } else {
      assert NonEmpty(xs) + [] == NonEmpty(xs);
    }
  }

  /** `PlatformInformation.toString`: the non-empty parts, in order, joined with `, `. */
  function PlatformToString(p: PlatformInformation): (r: String)
    ensures r == Join(NonEmpty([p.platform, ArchitectureText(p.architecture), DistributionText(p.distribution)]), ", ")
  {
    var a := p.platform;
    var b := ArchitectureText(p.architecture);
    var c := DistributionText(p.distribution);
    assert p.distribution.Some? ==> c != [] by {
      if p.distribution.Some? { assert |DistributionToString(p.distribution.value)| >= 5; }
    }
    AppendPartJoins([], a);
    AppendPartJoins([a], b);
    AppendPartJoins([a, b], c);
    assert [a] + [b] == [a, b] && [a, b] + [c] == [a, b, c];
    var afterArchitecture := if b != [] then AppendPart(a, b) else a;
    if p.distribution.Some? then AppendPart(afterArchitecture, c) else afterArchitecture
  }
}
