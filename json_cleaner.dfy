/**
 * `cleanJsonText` of the C# extension 1.16.2 (`json.js`), which makes a
 * settings file acceptable to `JSON.parse`: it drops byte-order marks, `//`
 * and block comments, and commas that are followed (past white space) by
 * `}` or `]`, and copies string literals untouched.
 *
 * `Clean` states the result as a scan over the rest of the text; the imperative
 * `CleanJsonText` (the source's loop with its `index`, `partStart` and `parts`)
 * is proved to compute it. Characters stand for UTF-16 code units.
 */
module JsonCleaner {
  import opened Wrappers
  import opened JsString

  const ByteOrderMark: char := '\U{FEFF}'

  /** `isLineBreak`: line feed, carriage return, vertical tab, form feed and the Unicode line and paragraph separators. */
  predicate IsLineBreak(c: char) {
    c == '\n' || c == '\r' || c == '\U{000B}' || c == '\U{000C}' || c == '\U{2028}' || c == '\U{2029}'
  }

  /** `isWhitespace`: the line breaks, space, tab and the Unicode spaces it lists, the byte-order mark among them. */
  predicate IsWhitespace(c: char) {
    var n := c as int;
    n == 32 || n == 9 || n == 10 || n == 11 || n == 12 || n == 13 || n == 133 || n == 160 || n == 5760
    || (8192 <= n <= 8203) || n == 8232 || n == 8233 || n == 8239 || n == 8287 || n == 12288 || n == 65279
  }

  lemma LineBreakIsWhitespace(c: char)
    requires IsLineBreak(c)
    ensures IsWhitespace(c) && c != ByteOrderMark
  {
  }

  // ---------------------------------------------------------------------------
  // The scanners, on the text that follows the current position.

  /**
   * The characters `scanString` consumes after the opening quote: up to and
   * including the closing quote or the first unescaped line break; a backslash
   * also consumes the next position, which may lie past the end.
   */
  function StringScan(t: String): (n: nat)
    ensures n <= |t| + 1
    decreases |t|
  {
    if t == [] then 0
    else if t[0] == '"' then 1
    else if t[0] == '\\' then (if |t| >= 2 then 2 + StringScan(t[2..]) else 2)
    else if IsLineBreak(t[0]) then 1
    else 1 + StringScan(t[1..])
  }

  /** The length of a `//` comment's text: up to the next line break. */
  function LineCommentScan(t: String): (n: nat)
    ensures n <= |t|
    ensures forall k :: 0 <= k < n ==> !IsLineBreak(t[k])
    ensures n < |t| ==> IsLineBreak(t[n])
  {
    if t == [] || IsLineBreak(t[0]) then 0 else 1 + LineCommentScan(t[1..])
  }

  /** The length of a block comment after its opening: through the first star-slash, or to the end of the text. */
  function BlockCommentScan(t: String): (n: nat)
    ensures n <= |t|
  {
    if t == [] then 0
    else if |t| >= 2 && t[0] == '*' && t[1] == '/' then 2
    else 1 + BlockCommentScan(t[1..])
  }

  /** `peekPastWhitespace`: the first character that is not white space, if any. */
  function NextNonWhite(t: String): (r: Option<char>)
    ensures r.Some? ==> !IsWhitespace(r.value)
    ensures r.None? <==> forall k :: 0 <= k < |t| ==> IsWhitespace(t[k])
  {
    if t == [] then None
    else if IsWhitespace(t[0]) then NextNonWhite(t[1..])
    else Some(t[0])
  }

  predicate IsClose(c: Option<char>) {
    c == Some('}') || c == Some(']')
  }

  /** The length of a string literal that starts `t`, clamped to the text. */
  function StringLength(t: String): (n: nat)
    requires t != [] && t[0] == '"'
    ensures 1 <= n <= |t|
  {
    var n := 1 + StringScan(t[1..]);
    if n <= |t| then n else |t|
  }

  /** What `cleanJsonText` keeps of `t`. */
  function Clean(t: String): String
    decreases |t|
  {
    if t == [] then []
    else if t[0] == ByteOrderMark then Clean(t[1..])
    else if t[0] == '"' then t[..StringLength(t)] + Clean(t[StringLength(t)..])
    else if t[0] == '/' && |t| >= 2 && t[1] == '/' then Clean(t[2 + LineCommentScan(t[2..])..])
    else if t[0] == '/' && |t| >= 2 && t[1] == '*' then Clean(t[2 + BlockCommentScan(t[2..])..])
    else if t[0] == ',' && IsClose(NextNonWhite(t[1..])) then Clean(t[1..])
    else [t[0]] + Clean(t[1..])
  }

  // ---------------------------------------------------------------------------
  // The imperative scanner.

  /** `parts.join('')`. */
  function Concat(parts: seq<String>): String {
    if parts == [] then [] else Concat(parts[..|parts| - 1]) + parts[|parts| - 1]
  }

  /** `scanString`, from the position after the opening quote. */
  method ScanString(text: String, start: int) returns (index: int)
    requires 0 <= start <= |text|
    ensures index == start + StringScan(text[start..])
  {
    index := start;
    while true
      invariant start <= index <= |text| + 1
      invariant start + StringScan(text[start..]) == index + if index <= |text| then StringScan(text[index..]) else 0
      decreases |text| + 1 - index
    {
      if index >= |text| {
        assert index == |text| ==> text[index..] == [];
        break;
      }
      var code := text[index];
      index := index + 1;
      assert text[index - 1..][1..] == text[index..];
      if code == '"' {
        break;
      }
      if code == '\\' {
        assert index < |text| ==> text[index - 1..][2..] == text[index + 1..];
        index := index + 1;
      }
      if IsLineBreak(code) {
        break;
      }
    }
  }

  /** `peekPastWhitespace`, from the position after the comma. */
  method PeekPastWhitespace(text: String, index: int) returns (code: Option<char>)
    requires 0 <= index <= |text|
    ensures code == NextNonWhite(text[index..])
  {
    var pos := index;
    code := if pos < |text| then Some(text[pos]) else None;
    pos := pos + 1;
    while code.Some? && IsWhitespace(code.value)
      invariant index < pos <= |text| + 1
      invariant code == (if pos - 1 < |text| then Some(text[pos - 1]) else None)
      invariant NextNonWhite(text[index..]) == NextNonWhite(text[pos - 1..])
      decreases |text| + 1 - pos
    {
      assert text[pos - 1..][1..] == text[pos..];
      code := if pos < |text| then Some(text[pos]) else None;
      pos := pos + 1;
    }
    if code.None? {
      assert text[pos - 1..] == [];
    }
  }

  lemma ConcatSnoc(parts: seq<String>, p: String)
    ensures Concat(parts + [p]) == Concat(parts) + p
  {
    assert (parts + [p])[..|parts|] == parts;
  }

  /** The loop that skips a line comment's text, from after the second slash. */
  method SkipLineComment(text: String, start: int) returns (index: int)
    requires 0 <= start <= |text|
    ensures index == start + LineCommentScan(text[start..])
  {
    index := start;
    while index < |text|
      invariant start <= index <= |text|
      invariant index + LineCommentScan(text[index..]) == start + LineCommentScan(text[start..])
      decreases |text| - index
    {
      if IsLineBreak(text[index]) {
        break;
      }
      assert text[index..][1..] == text[index + 1..];
      index := index + 1;
    }
  }

  /** The loop that skips a block comment, from after its star. */
  method SkipBlockComment(text: String, start: int) returns (index: int)
    requires 0 <= start <= |text|
    ensures index == start + BlockCommentScan(text[start..])
  {
    index := start;
    while index < |text|
      invariant start <= index <= |text|
      invariant index + BlockCommentScan(text[index..]) == start + BlockCommentScan(text[start..])
      decreases |text| - index
    {
      if text[index] == '*' && index + 1 < |text| && text[index + 1] == '/' {
        index := index + 2;
        break;
      }
      assert text[index..][1..] == text[index + 1..];
      index := index + 1;
    }
  }

  /** The loop invariant of `CleanJsonText`: the parts, the current part and what is left to clean make the result. */
  ghost predicate Scanned(text: String, parts: seq<String>, partStart: int, index: int)
    requires 0 <= partStart <= index <= |text|
  {
    Concat(parts) + text[partStart..index] + Clean(text[index..]) == Clean(text)
  }

  /** Characters kept by `Clean` join the current part. */
  lemma KeepStep(text: String, parts: seq<String>, partStart: int, i: int, j: int)
    requires 0 <= partStart <= i <= j <= |text| && Scanned(text, parts, partStart, i)
    requires Clean(text[i..]) == text[i..j] + Clean(text[j..])
    ensures Scanned(text, parts, partStart, j)
  {
    var c, a, b, d := Concat(parts), text[partStart..i], text[i..j], Clean(text[j..]);
    assert a + b == text[partStart..j];
    SeqAssoc(c + a, b, d);
    SeqAssoc(c, a, b);
  }

  /** Characters dropped by `Clean` end the current part, and a new one starts after them. */
  lemma DropStep(text: String, parts: seq<String>, partStart: int, i: int, j: int)
    requires 0 <= partStart <= i <= j <= |text| && Scanned(text, parts, partStart, i)
    requires Clean(text[i..]) == Clean(text[j..])
    ensures Scanned(text, parts + [Substring(text, partStart, i)], j, j)
  {
    var part := Substring(text, partStart, i);
    assert part == text[partStart..i];
    assert text[j..j] == [];
    PartDropped(parts, part, Clean(text[j..]), Clean(text));
  }

  /** The `Scanned` shape after a part is closed, stated over plain strings. */
  lemma PartDropped(parts: seq<String>, part: String, rest: String, whole: String)
    requires Concat(parts) + part + rest == whole
    ensures Concat(parts + [part]) + [] + rest == whole
  {
    ConcatSnoc(parts, part);
    assert Concat(parts + [part]) + [] == Concat(parts) + part;
  }

  lemma CleanAtPlain(text: String, i: int)
    requires 0 <= i < |text|
    requires text[i] != ByteOrderMark && text[i] != '"'
    requires text[i] == '/' ==> i + 1 >= |text| || (text[i + 1] != '/' && text[i + 1] != '*')
    requires text[i] == ',' ==> !IsClose(NextNonWhite(text[i + 1..]))
    ensures Clean(text[i..]) == text[i..i + 1] + Clean(text[i + 1..])
  {
    assert text[i..][1..] == text[i + 1..];
  }

  lemma CleanAtString(text: String, i: int, n: int)
    requires 0 <= i < |text| && text[i] == '"'
    requires n == i + 1 + StringScan(text[i + 1..])
    ensures var m := if n <= |text| then n else |text|;
      Clean(text[i..]) == text[i..m] + Clean(text[m..])
  {
    assert text[i..][1..] == text[i + 1..];
    var m := if n <= |text| then n else |text|;
    assert StringLength(text[i..]) == m - i;
    assert text[i..][..m - i] == text[i..m];
    assert text[i..][m - i..] == text[m..];
  }

  lemma CleanAtLineComment(text: String, i: int, j: int)
    requires 0 <= i && i + 1 < |text| && text[i] == '/' && text[i + 1] == '/'
    requires j == i + 2 + LineCommentScan(text[i + 2..])
    ensures Clean(text[i..]) == Clean(text[j..])
  {
    assert text[i..][2..] == text[i + 2..];
    assert text[i..][j - i..] == text[j..];
  }

  lemma CleanAtBlockComment(text: String, i: int, j: int)
    requires 0 <= i && i + 1 < |text| && text[i] == '/' && text[i + 1] == '*'
    requires j == i + 2 + BlockCommentScan(text[i + 2..])
    ensures Clean(text[i..]) == Clean(text[j..])
  {
    assert text[i..][2..] == text[i + 2..];
    assert text[i..][j - i..] == text[j..];
  }

  lemma CleanAtDropped(text: String, i: int)
    requires 0 <= i < |text|
    requires text[i] == ByteOrderMark || (text[i] == ',' && IsClose(NextNonWhite(text[i + 1..])))
    ensures Clean(text[i..]) == Clean(text[i + 1..])
  {
    assert text[i..][1..] == text[i + 1..];
  }

  /**
   * The slash case of `cleanJsonText`'s switch, with `index` just past the
   * slash: a line comment, then a block comment, is cut out of the parts.
   */
  method SlashCase(text: String, parts0: seq<String>, partStart0: int, index0: int)
    returns (parts: seq<String>, partStart: int, index: int)
    requires 0 <= partStart0 < index0 <= |text| && text[index0 - 1] == '/'
    requires Scanned(text, parts0, partStart0, index0 - 1)
    ensures 0 <= partStart <= index <= |text| && index0 <= index
    ensures Scanned(text, parts, partStart, index)
  {
    parts, partStart, index := parts0, partStart0, index0;
    ghost var comment := false;
    if index < |text| && text[index] == '/' {
      parts, partStart, index := CutComment(text, parts, partStart, index);
      comment := true;
      // A line comment stops at a line break or at the end, never at a star.
      assert index == |text| || IsLineBreak(text[index]);
    }
    if index < |text| && text[index] == '*' {
      assert !comment;
      parts, partStart, index := CutComment(text, parts, partStart, index);
      comment := true;
    }
    if !comment {
      CleanAtPlain(text, index0 - 1);
      KeepStep(text, parts, partStart, index0 - 1, index0);
    }
  }

  /**
   * A comment of the slash case, with `index0` at its second character (`/`
   * or `*`): the part before the first slash is pushed and the comment skipped.
   */
  method CutComment(text: String, parts0: seq<String>, partStart0: int, index0: int)
    returns (parts: seq<String>, partStart: int, index: int)
    requires 0 <= partStart0 < index0 < |text| && text[index0 - 1] == '/'
    requires text[index0] == '/' || text[index0] == '*'
    requires Scanned(text, parts0, partStart0, index0 - 1)
    ensures index0 < index <= |text| && partStart == index
    ensures text[index0] == '/' ==> index == |text| || IsLineBreak(text[index])
    ensures Scanned(text, parts, partStart, index)
  {
    var slash := index0 - 1;
    parts := parts0 + [Substring(text, partStart0, slash)];
    if text[index0] == '/' {
      index := SkipLineComment(text, index0 + 1);
      CleanAtLineComment(text, slash, index);
      assert index < |text| ==> text[index0 + 1..][index - index0 - 1] == text[index];
    } else {
      index := SkipBlockComment(text, index0 + 1);
      CleanAtBlockComment(text, slash, index);
    }
    DropStep(text, parts0, partStart0, slash, index);
    partStart := index;
  }

  /**
   * One turn of `cleanJsonText`'s loop up to its end test: `next()` and the
   * switch on the character read.
   */
  method Advance(text: String, parts0: seq<String>, partStart0: int, index0: int)
    returns (parts: seq<String>, partStart: int, index: int)
    requires 0 <= partStart0 <= index0 <= |text|
    requires Scanned(text, parts0, partStart0, index0)
    ensures 0 <= partStart <= |text| && partStart <= index && index0 < index
    ensures index <= |text| ==> Scanned(text, parts, partStart, index)
    ensures index > |text| ==> Scanned(text, parts, partStart, |text|)
  {
    parts, partStart, index := parts0, partStart0, index0;
    var code: Option<char> := if index < |text| then Some(text[index]) else None;
    index := index + 1;
    if code == Some(ByteOrderMark) {
      CleanAtDropped(text, index - 1);
      DropStep(text, parts, partStart, index - 1, index);
      parts := parts + [Substring(text, partStart, index - 1)];
      partStart := index;
    } else if code == Some('"') {
      ghost var quote := index - 1;
      index := ScanString(text, index);
      CleanAtString(text, quote, index);
      KeepStep(text, parts, partStart, quote, if index <= |text| then index else |text|);
    } else if code == Some('/') {
      parts, partStart, index := SlashCase(text, parts, partStart, index);
    } else if code == Some(',') {
      parts, partStart := CommaCase(text, parts, partStart, index);
    } else if code.Some? {
      CleanAtPlain(text, index - 1);
      KeepStep(text, parts, partStart, index - 1, index);
    }
  }

  /**
   * The comma case of `cleanJsonText`'s switch, with `index` just past the
   * comma: a comma before `}` or `]` is cut out of the parts.
   */
  method CommaCase(text: String, parts0: seq<String>, partStart0: int, index: int)
    returns (parts: seq<String>, partStart: int)
    requires 0 <= partStart0 < index <= |text| && text[index - 1] == ','
    requires Scanned(text, parts0, partStart0, index - 1)
    ensures 0 <= partStart <= index && Scanned(text, parts, partStart, index)
  {
    parts, partStart := parts0, partStart0;
    var nextCode := PeekPastWhitespace(text, index);
    if nextCode == Some('}') || nextCode == Some(']') {
      CleanAtDropped(text, index - 1);
      DropStep(text, parts, partStart, index - 1, index);
      parts := parts + [Substring(text, partStart, index - 1)];
      partStart := index;
    } else {
      CleanAtPlain(text, index - 1);
      KeepStep(text, parts, partStart, index - 1, index);
    }
  }

  /** `cleanJsonText`, proved against `Clean`. */
  method CleanJsonText(text: String) returns (r: String)
    ensures r == Clean(text)
  {
    var parts: seq<String> := [];
    var partStart := 0;
    var index := 0;
    var length := |text|;
    while true
      invariant 0 <= partStart <= index <= length
      invariant Scanned(text, parts, partStart, index)
      decreases length - index
    {
      parts, partStart, index := Advance(text, parts, partStart, index);
      if index >= length && index > partStart {
        assert text[length..] == [];
        ConcatSnoc(parts, Substring(text, partStart, length));
        parts := parts + [Substring(text, partStart, length)];
        break;
      }
    }
    r := Concat(parts);
  }

  // ---------------------------------------------------------------------------
  // What the cleaning keeps and removes.

  /** Nothing is added: the result is never longer than the text. */
  lemma {:induction false} CleanNoLonger(t: String)
    ensures |Clean(t)| <= |t|
    decreases |t|
  {
    if t != [] {
      if t[0] == ByteOrderMark || (t[0] == ',' && IsClose(NextNonWhite(t[1..]))) {
        CleanNoLonger(t[1..]);
      } else if t[0] == '"' {
        CleanNoLonger(t[StringLength(t)..]);
      } else if t[0] == '/' && |t| >= 2 && t[1] == '/' {
        CleanNoLonger(t[2 + LineCommentScan(t[2..])..]);
      } else if t[0] == '/' && |t| >= 2 && t[1] == '*' {
        CleanNoLonger(t[2 + BlockCommentScan(t[2..])..]);
      } else {
        CleanNoLonger(t[1..]);
      }
    }
  }

  /**
   * Text with no byte-order mark, no line or block comment and no trailing comma
   * outside its string literals.
   */
  predicate Untouched(t: String)
    decreases |t|
  {
    if t == [] then true
    else if t[0] == ByteOrderMark then false
    else if t[0] == '"' then Untouched(t[StringLength(t)..])
    else if t[0] == '/' && |t| >= 2 && (t[1] == '/' || t[1] == '*') then false
    else if t[0] == ',' && IsClose(NextNonWhite(t[1..])) then false
    else Untouched(t[1..])
  }

  /** The text comes back unchanged exactly when there is nothing to remove. */
  lemma {:induction false} CleanUnchanged(t: String)
    ensures Clean(t) == t <==> Untouched(t)
    decreases |t|
  {
    if t != [] {
      if t[0] == ByteOrderMark || (t[0] == ',' && IsClose(NextNonWhite(t[1..]))) {
        CleanNoLonger(t[1..]);
      } else if t[0] == '"' {
        var n := StringLength(t);
        CleanUnchanged(t[n..]);
        assert t == t[..n] + t[n..];
        assert Clean(t) == t ==> Clean(t[n..]) == t[n..] by {
          if Clean(t) == t {
            assert Clean(t)[n..] == Clean(t[n..]);
          }
        }
      } else if t[0] == '/' && |t| >= 2 && t[1] == '/' {
        CleanNoLonger(t[2 + LineCommentScan(t[2..])..]);
      } else if t[0] == '/' && |t| >= 2 && t[1] == '*' {
        CleanNoLonger(t[2 + BlockCommentScan(t[2..])..]);
      } else {
        CleanUnchanged(t[1..]);
        assert t == [t[0]] + t[1..];
        assert Clean(t) == t ==> Clean(t[1..]) == t[1..] by {
          if Clean(t) == t {
            assert Clean(t)[1..] == Clean(t[1..]);
          }
        }
      }
    }
  }

  /** Characters that start nothing the cleaning acts on. */
  predicate Ordinary(c: char) {
    c != ByteOrderMark && c != '"' && c != '/' && c != ','
  }

  /** Ordinary text in front of the rest is kept as it is. */
  lemma {:induction false} OrdinaryPrefix(a: String, b: String)
    requires forall k :: 0 <= k < |a| ==> Ordinary(a[k])
    ensures Clean(a + b) == a + Clean(b)
    decreases |a|
  {
    if a != [] {
      assert (a + b)[0] == a[0] && (a + b)[1..] == a[1..] + b;
      OrdinaryPrefix(a[1..], b);
      assert a == [a[0]] + a[1..];
    } else {
      assert a + b == b;
    }
  }

  /** A byte-order mark outside a string is dropped. */
  lemma ByteOrderMarkRemoved(a: String, b: String)
    requires forall k :: 0 <= k < |a| ==> Ordinary(a[k])
    ensures Clean(a + [ByteOrderMark] + b) == a + Clean(b)
  {
    OrdinaryPrefix(a, [ByteOrderMark] + b);
    assert a + [ByteOrderMark] + b == a + ([ByteOrderMark] + b);
    assert ([ByteOrderMark] + b)[1..] == b;
  }

  /** A `//` comment is dropped up to the line break, which is kept. */
  lemma LineCommentRemoved(c: String, lb: char, rest: String)
    requires forall k :: 0 <= k < |c| ==> !IsLineBreak(c[k])
    requires IsLineBreak(lb)
    ensures Clean("//" + c + [lb] + rest) == [lb] + Clean(rest)
  {
    var u := [lb] + rest;
    var t := "//" + (c + u);
    assert "//" + c + [lb] + rest == t by {
      SeqAssoc("//" + c, [lb], rest);
      SeqAssoc("//", c, u);
    }
    assert t[2..] == c + u;
    LineCommentLength(c, u);
    CleanAtLineComment(t, 0, 2 + |c|);
    assert t[0..] == t && t[2 + |c|..] == u;
    CleanAtWhite(u);
    assert u[1..] == rest;
  }

  lemma {:induction false} LineCommentLength(c: String, rest: String)
    requires forall k :: 0 <= k < |c| ==> !IsLineBreak(c[k])
    requires rest != [] && IsLineBreak(rest[0])
    ensures LineCommentScan(c + rest) == |c|
    decreases |c|
  {
    if c != [] {
      assert (c + rest)[1..] == c[1..] + rest;
      LineCommentLength(c[1..], rest);
    }
  }

  /** A block comment body with no star-slash in it. */
  predicate NoCloser(c: String) {
    forall k :: 0 <= k < |c| - 1 ==> !(c[k] == '*' && c[k + 1] == '/')
  }

  lemma {:induction false} BlockCommentLength(c: String, rest: String)
    requires NoCloser(c)
    requires |c| > 0 ==> c[|c| - 1] != '*' || rest == [] || rest[0] != '/'
    ensures BlockCommentScan(c + rest) == |c| + BlockCommentScan(rest)
    decreases |c|
  {
    if c != [] {
      assert (c + rest)[0] == c[0] && (c + rest)[1..] == c[1..] + rest;
      assert |c| >= 2 ==> (c + rest)[1] == c[1];
      assert |c| == 1 && rest != [] ==> (c + rest)[1] == rest[0];
      assert NoCloser(c[1..]) by {
        forall k | 0 <= k < |c[1..]| - 1 ensures !(c[1..][k] == '*' && c[1..][k + 1] == '/') {
          assert c[1..][k] == c[k + 1] && c[1..][k + 1] == c[k + 2];
        }
      }
      if |c| == 1 {
        assert c[1..] == [];
      }
      BlockCommentLength(c[1..], rest);
    } else {
      assert c + rest == rest;
    }
  }

  /** A block comment is dropped with its terminator. */
  lemma BlockCommentRemoved(c: String, rest: String)
    requires NoCloser(c)
    ensures Clean("/*" + c + "*/" + rest) == Clean(rest)
  {
    var t := "/*" + c + "*/" + rest;
    assert t[2..] == c + ("*/" + rest);
    if |c| > 0 && c[|c| - 1] == '*' {
      // The star before the slash closes the comment one position early.
      var c' := c[..|c| - 1];
      assert NoCloser(c') by {
        forall k | 0 <= k < |c'| - 1 ensures !(c'[k] == '*' && c'[k + 1] == '/') {
          assert c'[k] == c[k] && c'[k + 1] == c[k + 1];
        }
      }
      assert c + ("*/" + rest) == c' + ("**/" + rest);
      if |c'| > 0 {
        assert c'[|c'| - 1] == c[|c| - 2];
        assert c[|c| - 2] == '*' ==> c[|c| - 1] != '/';
      }
      BlockCommentLength(c', "**/" + rest);
      assert ("**/" + rest)[1..] == "*/" + rest;
      assert BlockCommentScan("**/" + rest) == 3;
      assert t[2 + |c| + 2..] == rest;
    } else {
      BlockCommentLength(c, "*/" + rest);
      assert t[2 + |c| + 2..] == rest;
    }
  }

  /** An unterminated block comment runs to the end of the text. */
  lemma {:induction false} BlockCommentUnterminated(c: String)
    requires NoCloser(c)
    ensures BlockCommentScan(c) == |c|
    ensures Clean("/*" + c) == []
    decreases |c|
  {
    if c != [] {
      assert NoCloser(c[1..]) by {
        forall k | 0 <= k < |c[1..]| - 1 ensures !(c[1..][k] == '*' && c[1..][k + 1] == '/') {
          assert c[1..][k] == c[k + 1] && c[1..][k + 1] == c[k + 2];
        }
      }
      BlockCommentUnterminated(c[1..]);
    }
    var t := "/*" + c;
    assert t[2..] == c;
    assert t[2 + |c|..] == [];
  }

  lemma CleanAtWhite(t: String)
    requires t != [] && IsWhitespace(t[0]) && t[0] != ByteOrderMark
    ensures Clean(t) == [t[0]] + Clean(t[1..])
    ensures NextNonWhite(t) == NextNonWhite(t[1..])
  {
    var n := t[0] as int;
    assert n != 34 && n != 47 && n != 44;
  }

  /** White space other than the byte-order mark is kept as it is. */
  lemma {:induction false} WhitespaceKept(ws: String, rest: String)
    requires forall k :: 0 <= k < |ws| ==> IsWhitespace(ws[k]) && ws[k] != ByteOrderMark
    ensures Clean(ws + rest) == ws + Clean(rest)
    ensures NextNonWhite(ws + rest) == NextNonWhite(rest)
    decreases |ws|
  {
    if ws != [] {
      ConsParts(ws, rest);
      CleanAtWhite(ws + rest);
      WhitespaceKept(ws[1..], rest);
      ConsParts(ws, Clean(rest));
    } else {
      assert ws + rest == rest;
    }
  }

  /** A comma before `}` or `]` is dropped; the white space after it is kept. */
  lemma TrailingCommaRemoved(ws: String, close: char, rest: String)
    requires forall k :: 0 <= k < |ws| ==> IsWhitespace(ws[k]) && ws[k] != ByteOrderMark
    requires close == '}' || close == ']'
    ensures Clean([','] + ws + [close] + rest) == ws + [close] + Clean(rest)
  {
    var t := [','] + ws + [close] + rest;
    assert t[1..] == ws + ([close] + rest);
    WhitespaceKept(ws, [close] + rest);
    assert ([close] + rest)[1..] == rest;
  }

  /** Any other comma is kept. */
  lemma CommaKept(rest: String)
    requires !IsClose(NextNonWhite(rest))
    ensures Clean([','] + rest) == [','] + Clean(rest)
  {
    assert ([','] + rest)[1..] == rest;
  }

  /** The inside of a well-formed string literal: escapes are pairs, and no bare quote or line break. */
  predicate StringBody(b: String)
    decreases |b|
  {
    if b == [] then true
    else if b[0] == '\\' then |b| >= 2 && StringBody(b[2..])
    else b[0] != '"' && !IsLineBreak(b[0]) && StringBody(b[1..])
  }

  lemma {:induction false} StringBodyScan(b: String, rest: String)
    requires StringBody(b)
    ensures StringScan(b + rest) == |b| + StringScan(rest)
    decreases |b|
  {
    if b != [] {
      assert (b + rest)[0] == b[0];
      if b[0] == '\\' {
        assert (b + rest)[1] == b[1];
        assert (b + rest)[2..] == b[2..] + rest;
        StringBodyScan(b[2..], rest);
      } else {
        assert (b + rest)[1..] == b[1..] + rest;
        StringBodyScan(b[1..], rest);
      }
    } else {
      assert b + rest == rest;
    }
  }

  /** A string literal is copied whole: slashes, commas and escaped quotes in it are kept. */
  lemma StringKept(b: String, rest: String)
    requires StringBody(b)
    ensures Clean("\"" + b + "\"" + rest) == "\"" + b + "\"" + Clean(rest)
  {
    var t := "\"" + b + "\"" + rest;
    assert t[1..] == b + ("\"" + rest);
    StringBodyScan(b, "\"" + rest);
    assert StringLength(t) == |b| + 2;
    assert t[..|b| + 2] == "\"" + b + "\"";
    assert t[|b| + 2..] == rest;
  }

  /** A line break ends an unterminated string literal. */
  lemma StringEndsAtLineBreak(b: String, lb: char, rest: String)
    requires StringBody(b) && IsLineBreak(lb)
    ensures Clean("\"" + b + [lb] + rest) == "\"" + b + [lb] + Clean(rest)
  {
    var t := "\"" + b + [lb] + rest;
    assert t[1..] == b + ([lb] + rest);
    StringBodyScan(b, [lb] + rest);
    assert StringLength(t) == |b| + 2;
    assert t[..|b| + 2] == "\"" + b + [lb];
    assert t[|b| + 2..] == rest;
  }
}
