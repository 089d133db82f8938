/**
 * Pieces shared by both versions of the XML extension's `V2XmlFormatter`:
 * the comment sanitiser that hides `<` inside comments behind a marker
 * string while the minification regular expressions run, its inverse, the
 * indentation string, the trailing-blank trimmer, and the "text with white
 * space deleted" view in which the formatter's output and input agree.
 */
module XmlText {
  import opened Wrappers
  import opened JsString

  /** The marker that stands for a `<` inside a comment during minification. */
  const Magic: String := "~::~MAAAGIC~::~"

  /** JavaScript `charAt` with the empty string written as `None`. */
  function At(s: String, k: int): (r: Option<char>)
    ensures r.Some? <==> 0 <= k < |s|
    ensures r.Some? ==> r.value == s[k]
  {
    if 0 <= k < |s| then Some(s[k]) else None
  }

  /** `/[\w\d]/.test(c)`: an ASCII letter, digit or underscore. */
  predicate IsWordChar(c: char) {
    ('a' <= c <= 'z') || ('A' <= c <= 'Z') || ('0' <= c <= '9') || c == '_'
  }

  // ---------------------------------------------------------------------
  // White space

  /** The text with every character of the class `\s` deleted. */
  function Squeeze(s: String): (r: String)
    ensures |r| <= |s|
    ensures forall k :: 0 <= k < |r| ==> !IsWhite(r[k])
  {
    if s == [] then [] else (if IsWhite(s[0]) then [] else [s[0]]) + Squeeze(s[1..])
  }

  predicate AllWhite(s: String) {
    forall k :: 0 <= k < |s| ==> IsWhite(s[k])
  }

  lemma {:induction false} SqueezeAppend(a: String, b: String)
    ensures Squeeze(a + b) == Squeeze(a) + Squeeze(b)
    decreases |a|
  {
    if a == [] {
      assert a + b == b;
    } else {
      assert (a + b)[0] == a[0];
      assert (a + b)[1..] == a[1..] + b;
      SqueezeAppend(a[1..], b);
    }
  }

  lemma {:induction false} SqueezeAllWhite(s: String)
    ensures AllWhite(s) <==> Squeeze(s) == []
    decreases |s|
  {
    if s != [] {
      SqueezeAllWhite(s[1..]);
      assert AllWhite(s) == (IsWhite(s[0]) && AllWhite(s[1..])) by {
        if IsWhite(s[0]) && AllWhite(s[1..]) {
          forall k | 0 <= k < |s| ensures IsWhite(s[k]) {
            if k > 0 { assert s[k] == s[1..][k - 1]; }
          }
        }
        if AllWhite(s) {
          forall k | 0 <= k < |s[1..]| ensures IsWhite(s[1..][k]) {
            assert s[1..][k] == s[k + 1];
          }
        }
      }
    }
  }

  lemma SqueezeSingle(c: char)
    ensures Squeeze([c]) == if IsWhite(c) then [] else [c]
  {
    assert [c][1..] == [];
  }

  /** Appending white `pre` and `w` before `c` adds only what `c` adds. */
  lemma SqueezePadded(out: String, pre: String, w: String, c: String)
    requires AllWhite(pre) && AllWhite(w)
    ensures Squeeze(out + pre + w + c) == Squeeze(out) + Squeeze(c)
  {
    SqueezeAllWhite(pre);
    SqueezeAllWhite(w);
    SqueezeAppend(out + pre + w, c);
    SqueezeAppend(out + pre, w);
    SqueezeAppend(out, pre);
  }

  /** White space deleted from a suffix, split at `j`. */
  lemma SqueezeSplit(xml: String, i: nat, j: nat)
    requires i <= j <= |xml|
    ensures Squeeze(xml[i..]) == Squeeze(xml[i..j]) + Squeeze(xml[j..])
  {
    assert xml[i..] == xml[i..j] + xml[j..];
    SqueezeAppend(xml[i..j], xml[j..]);
  }

  /** White space after `c` adds nothing once white space is deleted. */
  lemma SqueezeWhiteTail(out: String, c: String, tail: String)
    requires AllWhite(tail)
    ensures Squeeze(out + c + tail) == Squeeze(out) + Squeeze(c)
  {
    SqueezeAppend(out + c, tail);
    SqueezeAllWhite(tail);
    SqueezeAppend(out, c);
  }

  /** A space before `c` adds nothing once white space is deleted. */
  lemma SpaceThenSqueeze(out: String, c: String)
    ensures Squeeze(out + " " + c) == Squeeze(out) + Squeeze(c)
  {
    SqueezeAppend(out + " ", c);
    SqueezeAppend(out, " ");
    SqueezeSingle(' ');
  }

  /** Copying one more character of a slice. */
  lemma CopyOneMore(out: String, xml: String, i: nat, j: nat)
    requires i < j <= |xml|
    ensures (out + [xml[i]]) + xml[i + 1..j] == out + xml[i..j]
  {
    assert xml[i..j] == [xml[i]] + xml[i + 1..j];
  }

  /** `_removeTrailingNonBreakingWhitespace`: strips the trailing run matched by `[^\r\n\S]+$`. */
  function TrimTrailingBlank(s: String): (r: String)
    ensures |r| <= |s| && r == s[..|r|]
    ensures forall k :: |r| <= k < |s| ==> IsWhite(s[k]) && s[k] != '\r' && s[k] != '\n'
    ensures r == [] || !IsWhite(r[|r| - 1]) || r[|r| - 1] == '\r' || r[|r| - 1] == '\n'
  {
    if |s| > 0 && IsWhite(s[|s| - 1]) && s[|s| - 1] != '\r' && s[|s| - 1] != '\n' then
      TrimTrailingBlank(s[..|s| - 1])
    else
      s
  }

  /** Trimming the trailing blanks deletes only white space. */
  lemma TrimTrailingBlankSqueeze(s: String)
    ensures Squeeze(TrimTrailingBlank(s)) == Squeeze(s)
  {
    var r := TrimTrailingBlank(s);
    assert s == r + s[|r|..];
    assert AllWhite(s[|r|..]) by {
      forall k | 0 <= k < |s[|r|..]| ensures IsWhite(s[|r|..][k]) {
        assert s[|r|..][k] == s[|r| + k];
      }
    }
    SqueezeAppend(r, s[|r|..]);
    SqueezeAllWhite(s[|r|..]);
  }

  /** Where the character loop is: inside text, a tag, an attribute, a comment, ... */
  datatype Location = Attribute | AttributeValue | CData | Comment | EndTag | SpecialTag | StartTag | StartTagName | Text

  // ---------------------------------------------------------------------
  // Indentation

  /** The formatter options the character loop reads. */
  datatype Options = Options(
    insertSpaces: bool,
    tabSize: nat,
    newLine: String,
    splitXmlnsOnFormat: bool,
    splitAttributesOnFormat: bool,
    enforcePrettySelfClosingTagOnFormat: bool,
    initialIndentLevel: int)

  /** The `RangeError` that `String.prototype.repeat` raises for a negative count. */
  datatype RangeError = InvalidCountValue(count: int)

  /** One level of indentation: `tabSize` spaces, or a tab. */
  function IndentUnit(opts: Options): (r: String)
    ensures AllWhite(r)
    ensures opts.insertSpaces ==> |r| == opts.tabSize && forall k :: 0 <= k < |r| ==> r[k] == ' '
    ensures !opts.insertSpaces ==> r == "\t"
  {
    if opts.insertSpaces then Spaces(opts.tabSize) else "\t"
  }

  function Spaces(n: nat): (r: String)
    ensures |r| == n && forall k :: 0 <= k < n ==> r[k] == ' '
  {
    if n == 0 then [] else [' '] + Spaces(n - 1)
  }

  lemma {:induction false} RepeatWhite(s: String, n: nat)
    requires AllWhite(s)
    ensures AllWhite(Repeat(s, n))
    decreases n
  {
    if n > 0 {
      RepeatWhite(s, n - 1);
      var r := Repeat(s, n);
      forall k | 0 <= k < |r| ensures IsWhite(r[k]) {
        if k < |s| { assert r[k] == s[k]; } else { assert r[k] == Repeat(s, n - 1)[k - |s|]; }
      }
    }
  }

  /** `_getIndent`: the unit repeated `level` times; a negative level raises. */
  function Indent(opts: Options, level: int): (r: Result<String, RangeError>)
    ensures r.Ok? <==> level >= 0
    ensures r.Ok? ==> AllWhite(r.value) && |r.value| == level * |IndentUnit(opts)|
    ensures r.Ok? && !opts.insertSpaces ==> forall k :: 0 <= k < |r.value| ==> r.value[k] == '\t'
    ensures r.Err? ==> r.error == InvalidCountValue(level)
  {
    if level < 0 then Err(InvalidCountValue(level))
    else
      RepeatWhite(IndentUnit(opts), level);
      TabsRepeat(level);
      Ok(Repeat(IndentUnit(opts), level))
  }

  lemma {:induction false} TabsRepeat(n: nat)
    ensures forall k :: 0 <= k < |Repeat("\t", n)| ==> Repeat("\t", n)[k] == '\t'
    decreases n
  {
    if n > 0 {
      TabsRepeat(n - 1);
      var r := Repeat("\t", n);
      forall k | 0 <= k < |r| ensures r[k] == '\t' {
        if k > 0 { assert r[k] == Repeat("\t", n - 1)[k - 1]; }
      }
    }
  }

  /** `xml.substr(i, 5).toLowerCase() === "xmlns"`. */
  predicate XmlnsAt(xml: String, i: nat)
    requires i <= |xml|
  {
    ToLower(xml[i..if i + 5 <= |xml| then i + 5 else |xml|]) == "xmlns"
  }

  // ---------------------------------------------------------------------
  // Comment sanitising

  /** The text from a comment opener a `<!-` on: everything the sanitiser would emit. */
  function Sanitized(t: String, inComment: bool): String
    decreases |t|
  {
    if t == [] then []
    else if !inComment && |t| >= 3 && t[0] == '<' && t[1] == '!' && t[2] == '-' then
      // the index moves by 3 and the loop adds 1: the fourth character is never looked at
      "<!--" + Sanitized(t[if |t| >= 4 then 4 else 3..], true)
    else if inComment && t[0] == '<' then
      Magic + Sanitized(t[1..], true)
    else if inComment && |t| >= 3 && t[0] == '-' && t[1] == '-' && t[2] == '>' then
      "-->" + Sanitized(t[3..], false)
    else
      [t[0]] + Sanitized(t[1..], inComment)
  }

  /** The sanitised text is never shorter than the input: the marker is longer than the `<` it replaces. */
  lemma {:induction false} SanitizedLength(t: String, inComment: bool)
    ensures |Sanitized(t, inComment)| >= |t|
    decreases |t|
  {
    if t == [] {
    } else if !inComment && |t| >= 3 && t[0] == '<' && t[1] == '!' && t[2] == '-' {
      SanitizedLength(t[if |t| >= 4 then 4 else 3..], true);
    } else if inComment && t[0] == '<' {
      SanitizedLength(t[1..], true);
    } else if inComment && |t| >= 3 && t[0] == '-' && t[1] == '-' && t[2] == '>' {
      SanitizedLength(t[3..], false);
    } else {
      SanitizedLength(t[1..], inComment);
    }
  }

  /** `_sanitizeComments`: every `<` between `<!-` and `-->` becomes the marker. */
  method SanitizeComments(xml: String) returns (output: String)
    ensures output == Sanitized(xml, false)
  {
    output := "";
    var inComment := false;
    var i := 0;
    while i < |xml|
      invariant 0 <= i <= |xml| + 1
      invariant output + Sanitized(xml[if i <= |xml| then i else |xml|..], inComment) == Sanitized(xml, false)
      decreases |xml| - i
    {
      var cc := xml[i];
      var nc, nnc := At(xml, i + 1), At(xml, i + 2);
      SanitizedAt(xml, i, inComment);
      ghost var before := output;
      if !inComment && cc == '<' && nc == Some('!') && nnc == Some('-') {
        inComment := true;
        output := output + "<!--";
        i := i + 3;
        Regroup(before, "<!--", Sanitized(xml[if i + 1 <= |xml| then i + 1 else |xml|..], true));
      } else if inComment && cc == '<' {
        output := output + Magic;
        Regroup(before, Magic, Sanitized(xml[i + 1..], true));
      } else if inComment && cc == '-' && nc == Some('-') && nnc == Some('>') {
        inComment := false;
        output := output + "-->";
        i := i + 2;
        Regroup(before, "-->", Sanitized(xml[i + 1..], false));
      } else {
        output := output + [cc];
        Regroup(before, [cc], Sanitized(xml[i + 1..], inComment));
      }
      i := i + 1;
    }
  }

  lemma Regroup(a: String, b: String, c: String)
    ensures a + (b + c) == (a + b) + c
  {
  }

  /** One unfolding of `Sanitized` at position `i`, written in terms of `xml`. */
  lemma SanitizedAt(xml: String, i: nat, c: bool)
    requires i < |xml|
    ensures var t := Sanitized(xml[i..], c);
      if !c && xml[i] == '<' && At(xml, i + 1) == Some('!') && At(xml, i + 2) == Some('-') then
        t == "<!--" + Sanitized(xml[if i + 4 <= |xml| then i + 4 else |xml|..], true)
      else if c && xml[i] == '<' then
        t == Magic + Sanitized(xml[i + 1..], true)
      else if c && xml[i] == '-' && At(xml, i + 1) == Some('-') && At(xml, i + 2) == Some('>') then
        t == "-->" + Sanitized(xml[i + 3..], false)
      else
        t == [xml[i]] + Sanitized(xml[i + 1..], c)
  {
    var t := xml[i..];
    assert t[0] == xml[i];
    assert t[1..] == xml[i + 1..];
    if i + 3 <= |xml| { assert t[3..] == xml[i + 3..]; }
    if i + 4 <= |xml| { assert t[4..] == xml[i + 4..]; } else if i + 3 <= |xml| { assert t[3..] == xml[|xml|..]; }
  }

  /** `_unsanitizeComments`: a global replacement of the marker by `<`, scanning left to right. */
  function Unsanitized(t: String): String
    decreases |t|
  {
    if t == [] then []
    else if |t| >= |Magic| && t[..|Magic|] == Magic then "<" + Unsanitized(t[|Magic|..])
    else [t[0]] + Unsanitized(t[1..])
  }

  /** Replacing the marker by `<` never lengthens the text. */
  lemma {:induction false} UnsanitizedLength(t: String)
    ensures |Unsanitized(t)| <= |t|
    decreases |t|
  {
    if t == [] {
    } else if |t| >= |Magic| && t[..|Magic|] == Magic {
      UnsanitizedLength(t[|Magic|..]);
    } else {
      UnsanitizedLength(t[1..]);
    }
  }

  /** Every `<!-` of `t` is the start of `<!--`. */
  predicate OpenersComplete(t: String) {
    forall j :: 0 <= j < |t| && OccursAt(t, "<!-", j) ==> j + 3 < |t| && t[j + 3] == '-'
  }

  predicate NoTilde(t: String) {
    forall k :: 0 <= k < |t| ==> t[k] != '~'
  }

  lemma SuffixKeeps(t: String, n: nat)
    requires n <= |t| && OpenersComplete(t) && NoTilde(t)
    ensures OpenersComplete(t[n..]) && NoTilde(t[n..])
  {
    forall j | OccursAt(t[n..], "<!-", j) ensures j + 3 < |t[n..]| && t[n..][j + 3] == '-' {
      assert t[n..][j..j + 3] == t[n + j..n + j + 3];
      assert OccursAt(t, "<!-", n + j);
    }
    forall k | 0 <= k < |t[n..]| ensures t[n..][k] != '~' {
      assert t[n..][k] == t[n + k];
    }
  }

  lemma UnsanitizedChar(c: char, q: String)
    requires c != '~'
    ensures Unsanitized([c] + q) == [c] + Unsanitized(q)
  {
    var t := [c] + q;
    assert t[0] == c;
    assert t[1..] == q;
  }

  lemma UnsanitizedMagic(q: String)
    ensures Unsanitized(Magic + q) == "<" + Unsanitized(q)
  {
    var t := Magic + q;
    assert t[..|Magic|] == Magic;
    assert t[|Magic|..] == q;
  }

  lemma {:induction false} UnsanitizedWord(w: String, q: String)
    requires NoTilde(w)
    ensures Unsanitized(w + q) == w + Unsanitized(q)
    decreases |w|
  {
    if w == [] {
      assert w + q == q;
    } else {
      ConsParts(w, q);
      UnsanitizedChar(w[0], w[1..] + q);
      UnsanitizedWord(w[1..], q);
      SeqAssoc([w[0]], w[1..], Unsanitized(q));
    }
  }

  /**
   * For text without `~` in which every `<!-` begins a `<!--`, restoring
   * the marker gives back exactly the text the sanitiser was given.
   */
  lemma {:induction false} SanitizeRoundTrip(t: String, inComment: bool)
    requires NoTilde(t) && OpenersComplete(t)
    ensures Unsanitized(Sanitized(t, inComment)) == t
    decreases |t|
  {
    if t == [] {
    } else if !inComment && |t| >= 3 && t[0] == '<' && t[1] == '!' && t[2] == '-' {
      assert OccursAt(t, "<!-", 0);
      SuffixKeeps(t, 4);
      SanitizeRoundTrip(t[4..], true);
      UnsanitizedWord("<!--", Sanitized(t[4..], true));
      assert t == t[..4] + t[4..] && t[..4] == "<!--";
    } else if inComment && t[0] == '<' {
      SuffixKeeps(t, 1);
      SanitizeRoundTrip(t[1..], true);
      UnsanitizedMagic(Sanitized(t[1..], true));
      assert t == [t[0]] + t[1..];
    } else if inComment && |t| >= 3 && t[0] == '-' && t[1] == '-' && t[2] == '>' {
      SuffixKeeps(t, 3);
      SanitizeRoundTrip(t[3..], false);
      UnsanitizedWord("-->", Sanitized(t[3..], false));
      assert t == t[..3] + t[3..] && t[..3] == "-->";
    } else {
      SuffixKeeps(t, 1);
      SanitizeRoundTrip(t[1..], inComment);
      UnsanitizedChar(t[0], Sanitized(t[1..], inComment));
      assert t == [t[0]] + t[1..];
    }
  }

  /** The marker without its last `~`. */
  const CollisionBody: String := "~::~MAAAGIC~::"

  /** A comment holding the marker minus its last `~`, followed by a `<`. */
  const Collision: String := "<!--" + CollisionBody + "<-->"

  /**
   * Without the `~` restriction the round trip can fail even though the
   * marker itself never occurs: in `Collision` the restored `<` lands where
   * the first `~` was.
   */
  lemma MagicCollision()
    ensures !Contains(Collision, Magic) && OpenersComplete(Collision)
    ensures Unsanitized(Sanitized(Collision, false)) != Collision
  {
    CollisionHasNoMagic();
    CollisionOpeners();
    var y := CollisionBody + (Magic + "-->");
    CollisionSanitized();
    UnsanitizedWord("<!--", y);
    CollisionBodyThenMagic(y);
    assert ("<!--" + Unsanitized(y))[4] == Unsanitized(y)[0] == '<';
    assert Collision[4] == CollisionBody[0] == '~';
  }

  /** Followed by a `~`, the body of `Collision` reads as the marker. */
  lemma CollisionBodyThenMagic(y: String)
    requires y == CollisionBody + (Magic + "-->")
    ensures Unsanitized(y) == "<" + Unsanitized(y[|Magic|..])
  {
    assert Magic == CollisionBody + "~";
    assert y[..|Magic|] == CollisionBody + [y[14]];
  }

  lemma CollisionHasNoMagic()
    ensures !Contains(Collision, Magic)
  {
    CollisionMisses();
  }

  lemma CollisionMisses()
    ensures forall j :: 0 <= j <= |Collision| ==> !OccursAt(Collision, Magic, j)
  {
    var x := Collision;
    forall j | 0 <= j <= |x| ensures !OccursAt(x, Magic, j) {
      if j + |Magic| <= |x| {
        var w := x[j..j + |Magic|];
        if j == 4 {
          assert w[14] == x[18] != Magic[14];
        } else if j == 7 {
          assert w[1] == x[8] != Magic[1];
        } else {
          assert w[0] == x[j] != Magic[0];
        }
      }
    }
  }

  lemma CollisionOpeners()
    ensures OpenersComplete(Collision)
  {
    var x := Collision;
    forall j | 0 <= j < |x| && OccursAt(x, "<!-", j) ensures j + 3 < |x| && x[j + 3] == '-' {
      var w := x[j..j + 3];
      assert w[0] == x[j] == '<' && w[1] == x[j + 1] == '!';
      assert x[19] != '!';
      assert j == 0 || j == 18 by {
        assert forall k :: 1 <= k < 18 ==> x[k] != '<';
      }
    }
  }

  lemma CollisionSanitized()
    ensures Sanitized(Collision, false) == "<!--" + (CollisionBody + (Magic + "-->"))
  {
    CollisionOpened();
    SanitizedPlain(CollisionBody, "<-->");
    SanitizedHiddenCloser();
  }

  lemma CollisionOpened()
    ensures Sanitized(Collision, false) == "<!--" + Sanitized(CollisionBody + "<-->", true)
  {
    assert Collision[..3] == "<!-";
    assert Collision[4..] == CollisionBody + "<-->";
  }

  lemma SanitizedHiddenCloser()
    ensures Sanitized("<-->", true) == Magic + "-->"
  {
    var t := "<-->";
    assert t[1..] == "-->";
    SanitizedCloser([]);
    assert Sanitized([], false) == [];
  }

  /** Inside a comment, a stretch without `<`, `-` and the text after it is copied. */
  lemma {:induction false} SanitizedPlain(w: String, rest: String)
    requires forall k :: 0 <= k < |w| ==> w[k] != '<' && w[k] != '-'
    ensures Sanitized(w + rest, true) == w + Sanitized(rest, true)
    decreases |w|
  {
    if w == [] {
      assert w + rest == rest;
    } else {
      var t := w + rest;
      assert t[0] == w[0] && t[1..] == w[1..] + rest;
      SanitizedPlain(w[1..], rest);
      assert w == [w[0]] + w[1..];
    }
  }

  /** Text without a `<!-` is left alone by the sanitiser. */
  lemma {:induction false} SanitizeNoComment(t: String)
    requires forall j :: !OccursAt(t, "<!-", j)
    ensures Sanitized(t, false) == t
    decreases |t|
  {
    if t != [] {
      assert !OccursAt(t, "<!-", 0);
      forall j ensures !OccursAt(t[1..], "<!-", j) {
        if OccursAt(t[1..], "<!-", j) {
          assert t[1..][j..j + 3] == t[j + 1..j + 4];
          assert OccursAt(t, "<!-", j + 1);
        }
      }
      SanitizeNoComment(t[1..]);
      assert t == [t[0]] + t[1..];
    }
  }

  /**
   * `s` is `t` with some of its `<` characters replaced by the marker and
   * every other character kept in place.
   */
  predicate LtReplaced(t: String, s: String)
    decreases |t|
  {
    if t == [] then s == []
    else
      (|s| > 0 && s[0] == t[0] && LtReplaced(t[1..], s[1..]))
      || (t[0] == '<' && |s| >= |Magic| && s[..|Magic|] == Magic && LtReplaced(t[1..], s[|Magic|..]))
  }

  lemma {:induction false} LtReplacedWord(w: String, t: String, s: String)
    requires LtReplaced(t, s)
    ensures LtReplaced(w + t, w + s)
    decreases |w|
  {
    if w != [] {
      LtReplacedWord(w[1..], t, s);
      assert (w + t)[1..] == w[1..] + t;
      assert (w + s)[1..] == w[1..] + s;
    } else {
      assert w + t == t && w + s == s;
    }
  }

  /** When every `<!-` begins a `<!--`, sanitising only ever replaces `<` characters. */
  lemma {:induction false} SanitizeChangesOnlyLt(t: String, inComment: bool)
    requires OpenersComplete(t)
    ensures LtReplaced(t, Sanitized(t, inComment))
    decreases |t|
  {
    if t == [] {
    } else if !inComment && |t| >= 3 && t[0] == '<' && t[1] == '!' && t[2] == '-' {
      assert OccursAt(t, "<!-", 0);
      OpenersSuffix(t, 4);
      SanitizeChangesOnlyLt(t[4..], true);
      LtReplacedWord("<!--", t[4..], Sanitized(t[4..], true));
      assert t == t[..4] + t[4..] && t[..4] == "<!--";
    } else if inComment && t[0] == '<' {
      OpenersSuffix(t, 1);
      SanitizeChangesOnlyLt(t[1..], true);
      var s := Sanitized(t, inComment);
      assert s[..|Magic|] == Magic && s[|Magic|..] == Sanitized(t[1..], true);
    } else if inComment && |t| >= 3 && t[0] == '-' && t[1] == '-' && t[2] == '>' {
      OpenersSuffix(t, 3);
      SanitizeChangesOnlyLt(t[3..], false);
      LtReplacedWord("-->", t[3..], Sanitized(t[3..], false));
      assert t == t[..3] + t[3..] && t[..3] == "-->";
    } else {
      OpenersSuffix(t, 1);
      SanitizeChangesOnlyLt(t[1..], inComment);
      LtReplacedWord([t[0]], t[1..], Sanitized(t[1..], inComment));
      assert t == [t[0]] + t[1..];
    }
  }

  lemma OpenersSuffix(t: String, n: nat)
    requires n <= |t| && OpenersComplete(t)
    ensures OpenersComplete(t[n..])
  {
    forall j | OccursAt(t[n..], "<!-", j) ensures j + 3 < |t[n..]| && t[n..][j + 3] == '-' {
      assert t[n..][j..j + 3] == t[n + j..n + j + 3];
      assert OccursAt(t, "<!-", n + j);
    }
  }

  /** The character after `<!-` is not read: it is always written out as `-`. */
  lemma SanitizeOverwritesFourth(c: char, rest: String)
    ensures Sanitized("<!-" + [c] + rest, false) == "<!--" + Sanitized(rest, true)
  {
    var t := "<!-" + [c] + rest;
    assert t[4..] == rest;
  }

  /** Inside a comment, a character that does not start `-->` is hidden or copied. */
  lemma SanitizedInComment(c: char, q: String)
    requires !(c == '-' && |q| >= 2 && q[0] == '-' && q[1] == '>')
    ensures Sanitized([c] + q, true) == (if c == '<' then Magic else [c]) + Sanitized(q, true)
  {
    var t := [c] + q;
    assert t[0] == c && t[1..] == q;
  }

  /** No `-->` starts inside `body` (it may only start right after it). */
  predicate NoCloserIn(body: String) {
    var u := body + "-->";
    forall k :: 0 <= k < |body| ==> !(u[k] == '-' && u[k + 1] == '-' && u[k + 2] == '>')
  }

  /** Dropping the first character of a body keeps it free of closers, and that character does not start one. */
  lemma NoCloserTail(body: String)
    requires body != [] && NoCloserIn(body)
    ensures NoCloserIn(body[1..])
    ensures var u := body[1..] + "-->"; !(body[0] == '-' && u[0] == '-' && u[1] == '>')
  {
    var u := body + "-->";
    var v := body[1..] + "-->";
    assert u[0] == body[0] && u[1] == v[0] && u[2] == v[1];
    forall k | 0 <= k < |body[1..]| ensures !(v[k] == '-' && v[k + 1] == '-' && v[k + 2] == '>') {
      assert v[k] == u[k + 1] && v[k + 1] == u[k + 2] && v[k + 2] == u[k + 3];
    }
  }

  /** The first character of a body followed by the rest of the text. */
  lemma BodyCons(body: String, rest: String)
    requires body != []
    ensures body + "-->" + rest == [body[0]] + (body[1..] + "-->" + rest)
    ensures Hide(body) == (if body[0] == '<' then Magic else [body[0]]) + Hide(body[1..])
  {
    assert body == [body[0]] + body[1..];
  }

  lemma SanitizedCloser(rest: String)
    ensures Sanitized("-->" + rest, true) == "-->" + Sanitized(rest, false)
  {
    var t := "-->" + rest;
    assert t[3..] == rest;
  }

  lemma CommentBodyJoin(h: String, x: String, y: String)
    ensures h + (x + "-->" + y) == (h + x) + "-->" + y
  {
  }

  /** Every `<` of a comment body is hidden; the comment delimiters are kept. */
  lemma {:induction false} SanitizeCommentBody(body: String, rest: String)
    requires NoCloserIn(body)
    ensures Sanitized(body + "-->" + rest, true) == Hide(body) + "-->" + Sanitized(rest, false)
    decreases |body|
  {
    if body == [] {
      assert body + "-->" + rest == "-->" + rest;
      SanitizedCloser(rest);
    } else {
      var q := body[1..] + "-->" + rest;
      var h := if body[0] == '<' then Magic else [body[0]];
      NoCloserTail(body);
      BodyCons(body, rest);
      SanitizedInComment(body[0], q);
      SanitizeCommentBody(body[1..], rest);
      CommentBodyJoin(h, Hide(body[1..]), Sanitized(rest, false));
      assert Sanitized(body + "-->" + rest, true) == h + Sanitized(q, true);
    }
  }

  /** Every `<` replaced by the marker. */
  function Hide(s: String): (r: String)
    ensures LtReplaced(s, r)
    ensures forall k :: 0 <= k < |r| ==> r[k] != '<'
  {
    if s == [] then []
    else
      var h := (if s[0] == '<' then Magic else [s[0]]) + Hide(s[1..]);
      assert h[|if s[0] == '<' then Magic else [s[0]]|..] == Hide(s[1..]);
      h
  }

  /**
   * The text the formatter's character loop reads: comments sanitised,
   * minified by the regular expressions (here the parameter `minify`), and
   * unsanitised again.
   */
  function Prepared(xml: String, minify: String -> String): String {
    Unsanitized(minify(Sanitized(xml, false)))
  }
}
