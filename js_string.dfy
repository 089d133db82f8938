/**
 * The JavaScript `String.prototype` operations that the scanners, parsers and
 * command builders rely on, written out with JavaScript's own edge cases:
 * `substring` clamps and swaps its bounds, `slice` counts negative bounds from
 * the end, `split` of a text without the separator gives a one-element list,
 * and `trim` removes the JavaScript white-space and line-terminator set.
 * A string is a sequence of Unicode scalar values.
 */
module JsString {
  type String = seq<char>

  /** The characters `String.prototype.trim` and the regular-expression class `\s` remove. */
  predicate IsWhite(c: char) {
    c == ' ' || c == '\t' || c == '\n' || c == '\U{000B}' || c == '\U{000C}' || c == '\r'
    || c == '\U{00A0}' || c == '\U{1680}' || ('\U{2000}' <= c <= '\U{200A}')
    || c == '\U{2028}' || c == '\U{2029}' || c == '\U{202F}' || c == '\U{205F}'
    || c == '\U{3000}' || c == '\U{FEFF}'
  }

  predicate OccursAt(s: String, sub: String, i: int) {
    0 <= i && i + |sub| <= |s| && s[i..i + |sub|] == sub
  }

  /** `s.indexOf(sub, from)`: the first position at or after `from` where `sub` occurs, or -1. */
  function IndexOfFrom(s: String, sub: String, from: nat): (r: int)
    requires from <= |s|
    ensures r == -1 || (from <= r && OccursAt(s, sub, r))
    ensures r == -1 ==> forall j :: from <= j <= |s| ==> !OccursAt(s, sub, j)
    ensures r >= 0 ==> forall j :: from <= j < r ==> !OccursAt(s, sub, j)
    decreases |s| - from
  {
    if from + |sub| > |s| then -1
    else if s[from..from + |sub|] == sub then from
    else if from == |s| then -1
    else IndexOfFrom(s, sub, from + 1)
  }

  /** `s.indexOf(sub)`. */
  function IndexOf(s: String, sub: String): (r: int)
    ensures r == -1 || OccursAt(s, sub, r)
    ensures r == -1 <==> forall j :: 0 <= j <= |s| ==> !OccursAt(s, sub, j)
    ensures r >= 0 ==> forall j :: 0 <= j < r ==> !OccursAt(s, sub, j)
  {
    IndexOfFrom(s, sub, 0)
  }

  predicate Contains(s: String, sub: String) {
    IndexOf(s, sub) >= 0
  }

  /** Text shorter than `sub` cannot contain it. */
  lemma ShorterAbsent(s: String, sub: String)
    requires |s| < |sub|
    ensures !Contains(s, sub)
  {
  }

  /** The first occurrence is the one with none before it. */
  lemma IndexOfIs(s: String, sub: String, i: int)
    requires OccursAt(s, sub, i) && forall j :: 0 <= j < i ==> !OccursAt(s, sub, j)
    ensures IndexOf(s, sub) == i
  {
    var r := IndexOf(s, sub);
    assert r != -1;
    assert !(r < i);
    assert !(r > i);
  }

  predicate StartsWith(s: String, prefix: String) {
    |prefix| <= |s| && s[..|prefix|] == prefix
  }

  predicate EndsWith(s: String, suffix: String) {
    |suffix| <= |s| && s[|s| - |suffix|..] == suffix
  }

  function Clamp(x: int, len: nat): (r: nat)
    ensures r <= len
  {
    if x < 0 then 0 else if x > len then len else x
  }

  /** `s.substring(start, end)`: bounds are clamped to the text and swapped when reversed. */
  function Substring(s: String, start: int, end: int): (r: String)
    ensures var a, b := Clamp(start, |s|), Clamp(end, |s|);
            r == if a <= b then s[a..b] else s[b..a]
  {
    var a, b := Clamp(start, |s|), Clamp(end, |s|);
    if a <= b then s[a..b] else s[b..a]
  }

  /** A bound of `s.slice`: a negative bound counts from the end. */
  function SliceBound(x: int, len: nat): (r: nat)
    ensures r <= len
  {
    if x < 0 then Clamp(len + x, len) else Clamp(x, len)
  }

  /** `s.slice(start, end)`. */
  function Slice(s: String, start: int, end: int): (r: String)
    ensures var a, b := SliceBound(start, |s|), SliceBound(end, |s|);
            r == if a < b then s[a..b] else []
  {
    var a, b := SliceBound(start, |s|), SliceBound(end, |s|);
    if a < b then s[a..b] else []
  }

  /** A slice between in-range bounds is the subsequence between them. */
  lemma SliceWithin(s: String, a: int, b: int)
    requires 0 <= a <= b <= |s|
    ensures Slice(s, a, b) == s[a..b]
  {
  }

  /** A text ends with what was appended to it. */
  lemma EndsWithAppended(a: String, b: String)
    ensures EndsWith(a + b, b)
  {
    assert (a + b)[|a|..] == b;
  }

  /** A text around its first occurrence of a character. */
  lemma AroundFirstChar(s: String, c: char)
    requires IndexOf(s, [c]) >= 0
    ensures var i := IndexOf(s, [c]);
            i < |s| && (forall k :: 0 <= k < i ==> s[k] != c)
            && Slice(s, 0, i) == s[..i] && s == s[..i] + [c] + Slice(s, i + 1, |s|)
  {
    IndexOfChar(s, c);
    var i := IndexOf(s, [c]);
    SliceWithin(s, 0, i);
    SliceAfterPrefix(s[..i + 1], s[i + 1..]);
    AroundIndex(s, i);
  }

  lemma AroundIndex(s: String, i: int)
    requires 0 <= i < |s|
    ensures s == s[..i] + [s[i]] + s[i + 1..] == s[..i + 1] + s[i + 1..]
    ensures |s[..i + 1]| == i + 1
  {
  }

  /** The slice of a concatenation that spans one of its parts. */
  lemma SliceMiddle(pre: String, mid: String, post: String, rest: String)
    ensures Slice(pre + mid + post + rest, |pre|, |pre| + |mid|) == mid
  {
    var s := pre + mid + post + rest;
    assert s[|pre|..|pre| + |mid|] == mid;
  }

  /** A text starting with a prefix finds it first at 0. */
  lemma PrefixIndexOf(p: String, t: String)
    ensures IndexOf(p + t, p) == 0
  {
    assert (p + t)[0..|p|] == p;
    assert OccursAt(p + t, p, 0);
  }

  /** The part of a concatenation between its neighbours. */
  lemma MiddleOf(pre: String, mid: String, post: String)
    ensures (pre + mid + post)[|pre|..|pre| + |mid|] == mid
  {
  }

  /** The slice after a prefix. */
  lemma SliceAfterPrefix(p: String, t: String)
    ensures Slice(p + t, |p|, |p + t|) == t
  {
    assert (p + t)[|p|..] == t;
  }

  lemma SeqAssoc<T>(a: seq<T>, b: seq<T>, c: seq<T>)
    ensures a + (b + c) == (a + b) + c
  {
  }

  /** The front and the last element of `a + b` for a non-empty `b`. */
  lemma AppendParts<T>(a: seq<T>, b: seq<T>)
    requires |b| > 0
    ensures (a + b)[..|a + b| - 1] == a + b[..|b| - 1] && (a + b)[|a + b| - 1] == b[|b| - 1]
  {
  }

  /** `a + b` as the first element of `a` followed by the rest. */
  lemma ConsParts<T>(a: seq<T>, b: seq<T>)
    requires |a| > 0
    ensures a + b == [a[0]] + (a[1..] + b) && a == [a[0]] + a[1..]
  {
  }

  /** A prefix one element longer. */
  lemma TakeOneMore<T>(s: seq<T>, i: int)
    requires 0 <= i < |s|
    ensures s[..i + 1] == s[..i] + [s[i]]
  {
  }

  /** `s.split(sep)` for a non-empty separator. */
  function Split(s: String, sep: String): (parts: seq<String>)
    requires |sep| > 0
    ensures |parts| >= 1
    decreases |s|
  {
    var i := IndexOf(s, sep);
    if i < 0 then [s] else [s[..i]] + Split(s[i + |sep|..], sep)
  }

  /** `parts.join(sep)`. */
  function Join(parts: seq<String>, sep: String): String
  {
    if |parts| == 0 then []
    else if |parts| == 1 then parts[0]
    else parts[0] + sep + Join(parts[1..], sep)
  }

  lemma {:induction false} JoinSplit(s: String, sep: String)
    requires |sep| > 0
    ensures Join(Split(s, sep), sep) == s
    decreases |s|
  {
    var i := IndexOf(s, sep);
    if i >= 0 {
      var rest := s[i + |sep|..];
      var tail := Split(rest, sep);
      JoinSplit(rest, sep);
      assert Split(s, sep) == [s[..i]] + tail;
      assert Join([s[..i]] + tail, sep) == s[..i] + sep + Join(tail, sep) by {
        var ps := [s[..i]] + tail;
        assert |ps| >= 2 && ps[0] == s[..i] && ps[1..] == tail;
      }
      assert s[i..i + |sep|] == sep;
      assert s == s[..i] + s[i..i + |sep|] + rest;
    }
  }

  lemma {:induction false} SplitPartsFree(s: String, sep: String)
    requires |sep| > 0
    ensures forall k :: 0 <= k < |Split(s, sep)| ==> !Contains(Split(s, sep)[k], sep)
    decreases |s|
  {
    var i := IndexOf(s, sep);
    if i >= 0 {
      var rest := s[i + |sep|..];
      SplitPartsFree(rest, sep);
      NoneInPrefix(s, sep, i);
      assert Split(s, sep) == [s[..i]] + Split(rest, sep);
    } else {
      assert Split(s, sep) == [s];
    }
  }

  /** A prefix that ends before the first occurrence does not contain it. */
  lemma NoneInPrefix(s: String, sub: String, i: int)
    requires |sub| > 0 && 0 <= i <= |s|
    requires forall j :: 0 <= j < i ==> !OccursAt(s, sub, j)
    ensures !Contains(s[..i], sub)
  {
    var p := s[..i];
    forall j | 0 <= j <= |p| ensures !OccursAt(p, sub, j) {
      if j + |sub| <= |p| {
        assert p[j..j + |sub|] == s[j..j + |sub|];
        assert !OccursAt(s, sub, j);
      }
    }
  }

  lemma OccursAtChar(s: String, c: char, j: int)
    ensures OccursAt(s, [c], j) <==> 0 <= j < |s| && s[j] == c
  {
    if 0 <= j < |s| {
      assert s[j..j + 1] == [s[j]];
    }
  }

  /** The first occurrence of a character is its first index. */
  lemma IndexOfCharFirst(s: String, c: char, i: nat)
    requires i < |s| && s[i] == c
    requires forall k :: 0 <= k < i ==> s[k] != c
    ensures IndexOf(s, [c]) == i
  {
    OccursAtChar(s, c, i);
    forall j | 0 <= j < i ensures !OccursAt(s, [c], j) {
      OccursAtChar(s, c, j);
    }
    IndexOfIs(s, [c], i);
  }

  /** `indexOf` of a one-character string, stated on characters. */
  lemma IndexOfChar(s: String, c: char)
    ensures IndexOf(s, [c]) == -1 <==> forall k :: 0 <= k < |s| ==> s[k] != c
    ensures IndexOf(s, [c]) >= 0 ==> IndexOf(s, [c]) < |s| && s[IndexOf(s, [c])] == c
    ensures forall k :: 0 <= k < IndexOf(s, [c]) ==> s[k] != c
  {
    var r := IndexOf(s, [c]);
    OccursAtChar(s, c, r);
    forall k | 0 <= k < |s| && (r == -1 || k < r) ensures s[k] != c {
      OccursAtChar(s, c, k);
    }
  }

  lemma IndexOfCharAbsent(s: String, c: char)
    requires forall k :: 0 <= k < |s| ==> s[k] != c
    ensures IndexOf(s, [c]) == -1
  {
    var r := IndexOf(s, [c]);
    OccursAtChar(s, c, r);
  }

  /** Splitting on a character distributes over a concatenation around that character. */
  lemma {:induction false} SplitAppend(a: String, x: String, c: char)
    ensures Split(a + [c] + x, [c]) == Split(a, [c]) + Split(x, [c])
    decreases |a|
  {
    var big := a + [c] + x;
    var i := IndexOf(a, [c]);
    IndexOfChar(a, c);
    var n := if i < 0 then |a| else i;
    forall k | 0 <= k < n ensures big[k] != c {
      assert big[k] == a[k];
    }
    assert big[n] == c;
    IndexOfCharFirst(big, c, n);
    SplitCharFound(big, c, n);
    assert big[..n] == a[..n];
    if i < 0 {
      assert big[n + 1..] == x;
      SplitCharAbsent(a, c);
      assert a[..n] == a;
    } else {
      SplitCharFound(a, c, i);
      var tail := a[i + 1..];
      assert big[i + 1..] == tail + [c] + x;
      SplitAppend(tail, x, c);
      var head := [a[..i]];
      assert Split(big, [c]) == head + (Split(tail, [c]) + Split(x, [c]));
      assert Split(a, [c]) == head + Split(tail, [c]);
      SeqAssoc(head, Split(tail, [c]), Split(x, [c]));
    }
  }

  /** Splitting text free of the separator character gives the text itself. */
  lemma SplitCharAbsent(s: String, c: char)
    requires forall k :: 0 <= k < |s| ==> s[k] != c
    ensures Split(s, [c]) == [s]
  {
    IndexOfCharAbsent(s, c);
  }

  /** Joining at least two parts puts the separator after the first. */
  lemma JoinFirst(parts: seq<String>, sep: String)
    requires |parts| >= 2
    ensures Join(parts, sep) == parts[0] + sep + Join(parts[1..], sep)
  {
  }

  /** Splitting on a character undoes joining parts that do not contain it. */
  lemma {:induction false} SplitJoin(parts: seq<String>, c: char)
    requires |parts| >= 1
    requires forall k, j :: 0 <= k < |parts| && 0 <= j < |parts[k]| ==> parts[k][j] != c
    ensures Split(Join(parts, [c]), [c]) == parts
    decreases |parts|
  {
    var head := parts[0];
    assert forall j :: 0 <= j < |head| ==> head[j] != c by {
      forall j | 0 <= j < |head| ensures head[j] != c {
        assert parts[0][j] != c;
      }
    }
    SplitCharAbsent(head, c);
    if |parts| > 1 {
      var tail := parts[1..];
      assert forall k, j :: 0 <= k < |tail| && 0 <= j < |tail[k]| ==> tail[k][j] != c by {
        forall k, j | 0 <= k < |tail| && 0 <= j < |tail[k]| ensures tail[k][j] != c {
          assert tail[k] == parts[k + 1];
        }
      }
      SplitJoin(tail, c);
      var rest := Join(tail, [c]);
      JoinFirst(parts, [c]);
      assert Join(parts, [c]) == head + [c] + rest;
      SplitAppend(head, rest, c);
      assert Split(head + [c] + rest, [c]) == [head] + tail;
      assert parts == [head] + tail;
    }
  }

  /** The parts of a split on a character do not contain it. */
  lemma SplitCharFree(s: String, c: char)
    ensures forall k, j :: 0 <= k < |Split(s, [c])| && 0 <= j < |Split(s, [c])[k]| ==> Split(s, [c])[k][j] != c
  {
    SplitPartsFree(s, [c]);
    forall k | 0 <= k < |Split(s, [c])|
      ensures forall j :: 0 <= j < |Split(s, [c])[k]| ==> Split(s, [c])[k][j] != c
    {
      IndexOfChar(Split(s, [c])[k], c);
    }
  }

  /** The split found at the first occurrence of a character. */
  lemma SplitCharFound(s: String, c: char, i: int)
    requires i == IndexOf(s, [c]) && i >= 0
    ensures i < |s|
    ensures Split(s, [c]) == [s[..i]] + Split(s[i + 1..], [c])
  {
    OccursAtChar(s, c, i);
    assert |[c]| == 1;
  }

  /** Joining after a first part. */
  lemma JoinCons(head: String, tail: seq<String>, sep: String)
    requires |tail| >= 1
    ensures Join([head] + tail, sep) == head + sep + Join(tail, sep)
  {
    var ps := [head] + tail;
    assert ps[0] == head && ps[1..] == tail;
  }

  /** Replacing a character by a character maps the text position by position. */
  lemma {:induction false} ReplaceCharwise(s: String, c: char, d: char)
    ensures var r := Join(Split(s, [c]), [d]);
            |r| == |s| && forall k :: 0 <= k < |s| ==> r[k] == (if s[k] == c then d else s[k])
    decreases |s|
  {
    var i := IndexOf(s, [c]);
    IndexOfChar(s, c);
    if i < 0 {
      assert Split(s, [c]) == [s];
    } else {
      SplitCharFound(s, c, i);
      var pre := s[..i];
      var rest := s[i + 1..];
      var tail := Split(rest, [c]);
      ReplaceCharwise(rest, c, d);
      var t := Join(tail, [d]);
      JoinCons(pre, tail, [d]);
      var r := pre + [d] + t;
      assert Join(Split(s, [c]), [d]) == r;
      assert |r| == |s|;
      forall k | 0 <= k < |s| ensures r[k] == (if s[k] == c then d else s[k]) {
        if k < i {
          assert r[k] == pre[k] == s[k] && s[k] != c;
        } else if k == i {
          assert r[k] == d && s[k] == c;
        } else {
          assert r[k] == t[k - i - 1] && rest[k - i - 1] == s[k];
        }
      }
    }
  }

  /** `' '.repeat(n)` and friends. */
  function Repeat(s: String, n: nat): (r: String)
    ensures |r| == n * |s|
  {
    if n == 0 then [] else s + Repeat(s, n - 1)
  }

  function TrimStart(s: String): (r: String)
    ensures |r| <= |s| && r == s[|s| - |r|..]
    ensures r == [] || !IsWhite(r[0])
    ensures forall k :: 0 <= k < |s| - |r| ==> IsWhite(s[k])
  {
    if |s| > 0 && IsWhite(s[0]) then TrimStart(s[1..]) else s
  }

  function TrimEnd(s: String): (r: String)
    ensures |r| <= |s| && r == s[..|r|]
    ensures r == [] || !IsWhite(r[|r| - 1])
    ensures forall k :: |r| <= k < |s| ==> IsWhite(s[k])
  {
    if |s| > 0 && IsWhite(s[|s| - 1]) then TrimEnd(s[..|s| - 1]) else s
  }

  /** `r` is `s` with white space only before position `i` and after `i + |r|`. */
  predicate TrimmedAt(s: String, r: String, i: int) {
    0 <= i <= |s| - |r| && r == s[i..i + |r|]
    && (forall k :: 0 <= k < i ==> IsWhite(s[k]))
    && (forall k :: i + |r| <= k < |s| ==> IsWhite(s[k]))
  }

  /** `s.trim()`: the infix left after removing white space at both ends. */
  function Trim(s: String): (r: String)
    ensures exists i :: TrimmedAt(s, r, i)
    ensures r == [] || (!IsWhite(r[0]) && !IsWhite(r[|r| - 1]))
  {
    var e := TrimEnd(s);
    var r := TrimStart(e);
    TrimmedBothEnds(s, e, r);
    r
  }

  /** Text with no white space at either end is its own trim. */
  lemma TrimKeeps(s: String)
    requires s != [] && !IsWhite(s[0]) && !IsWhite(s[|s| - 1])
    ensures Trim(s) == s
  {
    assert TrimEnd(s) == s;
    assert TrimStart(s) == s;
  }

  /** Text that is its own trim has no white space at either end. */
  lemma TrimmedEnds(s: String)
    requires Trim(s) == s && s != []
    ensures !IsWhite(s[0]) && !IsWhite(s[|s| - 1])
  {
    var r := Trim(s);
    assert r != [];
  }

  /** Where the trimmed text starts in the original. */
  lemma TrimOffset(s: String) returns (i: nat)
    ensures i + |Trim(s)| <= |s| && Trim(s) == s[i..i + |Trim(s)|]
  {
    var r := Trim(s);
    i :| TrimmedAt(s, r, i);
  }

  lemma TrimmedBothEnds(s: String, e: String, r: String)
    requires |e| <= |s| && e == s[..|e|] && forall k :: |e| <= k < |s| ==> IsWhite(s[k])
    requires |r| <= |e| && r == e[|e| - |r|..] && forall k :: 0 <= k < |e| - |r| ==> IsWhite(e[k])
    ensures TrimmedAt(s, r, |e| - |r|)
  {
    var i := |e| - |r|;
    assert r == s[i..i + |r|];
    forall k | 0 <= k < i ensures IsWhite(s[k]) {
      assert s[k] == e[k];
    }
  }

  function LowerChar(c: char): char {
    if 'A' <= c <= 'Z' then (c as int + 32) as char else c
  }

  /** `s.toLowerCase()` restricted to the ASCII letters. */
  function ToLower(s: String): (r: String)
    ensures |r| == |s| && forall k :: 0 <= k < |s| ==> r[k] == LowerChar(s[k])
  {
    if s == [] then [] else [LowerChar(s[0])] + ToLower(s[1..])
  }

  /** `s.replace(/pat/g, rep)` for a literal, non-empty pattern. */
  function ReplaceAll(s: String, pat: String, rep: String): String
    requires |pat| > 0
  {
    Join(Split(s, pat), rep)
  }

  lemma ReplaceAllAbsent(s: String, pat: String, rep: String)
    requires |pat| > 0 && !Contains(s, pat)
    ensures ReplaceAll(s, pat, rep) == s
  {
  }

  /** `s.replace(pat, rep)` with a string pattern: only the first occurrence is replaced. */
  function ReplaceFirst(s: String, pat: String, rep: String): (r: String)
    ensures !Contains(s, pat) ==> r == s
    ensures Contains(s, pat) ==>
      var i := IndexOf(s, pat);
      r == s[..i] + rep + s[i + |pat|..] && forall j :: 0 <= j < i ==> !OccursAt(s, pat, j)
  {
    var i := IndexOf(s, pat);
    if i < 0 then s else s[..i] + rep + s[i + |pat|..]
  }

  /** The decimal rendering JavaScript gives a non-negative integer. */
  function NatToString(n: nat): (r: String)
    ensures |r| >= 1 && forall k :: 0 <= k < |r| ==> '0' <= r[k] <= '9'
    decreases n
  {
    if n < 10 then ["0123456789"[n]] else NatToString(n / 10) + ["0123456789"[n % 10]]
  }

  function IntToString(n: int): String {
    if n < 0 then "-" + NatToString(-n) else NatToString(n)
  }

  /** `a <= b` on strings: code-unit lexicographic order. */
  predicate LexLe(a: String, b: String) {
    if a == [] then true
    else if b == [] then false
    else if a[0] != b[0] then a[0] < b[0]
    else LexLe(a[1..], b[1..])
  }

  /** `a < b` on strings. */
  predicate StringLess(a: String, b: String) {
    !LexLe(b, a)
  }

  lemma {:induction false} LexLeTotal(a: String, b: String)
    ensures LexLe(a, b) || LexLe(b, a)
  {
    if a != [] && b != [] && a[0] == b[0] {
      LexLeTotal(a[1..], b[1..]);
    }
  }

  lemma {:induction false} LexLeReflexive(a: String)
    ensures LexLe(a, a)
  {
    if a != [] {
      LexLeReflexive(a[1..]);
    }
  }

  lemma {:induction false} LexLeTransitive(a: String, b: String, c: String)
    requires LexLe(a, b) && LexLe(b, c)
    ensures LexLe(a, c)
  {
    if a != [] && b != [] && c != [] && a[0] == b[0] && b[0] == c[0] {
      LexLeTransitive(a[1..], b[1..], c[1..]);
    }
  }

  /** No string is smaller than itself. */
  lemma StringLessIrreflexive(a: String)
    ensures !StringLess(a, a)
  {
    LexLeReflexive(a);
  }
}
