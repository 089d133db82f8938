/**
 * `V2XmlFormatter.formatXml` of the XML extension, version 2.3.1: the same
 * character loop as in 2.4.0 without mixed-content handling, with the
 * position held in two variables, `location` and `lastNonTextLocation`,
 * instead of a history, and with the indentation starting at zero.
 */
module XmlFormatterLegacy {
  import opened Wrappers
  import opened JsString
  import opened XmlText

  /** The loop's variables. */
  datatype State = State(
    output: String,
    indentLevel: int,
    location: Location,
    lastNonTextLocation: Location,
    attributeQuote: Option<char>,
    lineBreakSpree: bool)

  datatype Moved = Moved(state: State, next: nat)

  function Initial(): (st: State)
    ensures st.output == [] && st.indentLevel == 0 && st.location == Text && st.lastNonTextLocation == Text
    ensures QuoteKept(st)
  {
    State([], 0, Text, Text, None, false)
  }

  /** Leaving the current location for `to`: `lastNonTextLocation = location; location = to`. */
  function Leave(st: State, to: Location): (r: State)
    ensures r == st.(lastNonTextLocation := st.location, location := to)
  {
    st.(lastNonTextLocation := st.location, location := to)
  }

  function Append(st: State, s: String): State {
    st.(output := st.output + s)
  }

  function AddIndent(st: State, opts: Options, before: String, after: String): (r: Result<State, RangeError>)
    ensures r.Err? <==> st.indentLevel < 0
    ensures r.Ok? ==> r.value == st.(output := st.output + before + Indent(opts, st.indentLevel).value + after)
  {
    match Indent(opts, st.indentLevel)
    case Err(e) => Err(e)
    case Ok(ind) => Ok(st.(output := st.output + before + ind + after))
  }

  /** Moves to `loc` from `Text`; `lastNonTextLocation` is not touched. */
  function Enter(r: Result<State, RangeError>, loc: Location, next: nat): (m: Result<Moved, RangeError>)
    ensures m.Ok? <==> r.Ok?
    ensures m.Ok? ==> m.value.state == r.value.(location := loc) && m.value.next == next
  {
    match r
    case Err(e) => Err(e)
    case Ok(s) => Ok(Moved(s.(location := loc), next))
  }

  /**
   * One turn of the `for` loop: the first branch whose condition holds,
   * grouped by the location every branch but the last tests.
   */
  function Step(xml: String, i: nat, opts: Options, st: State): (r: Result<Moved, RangeError>)
    requires i < |xml|
    ensures r.Ok? ==> i < r.value.next <= |xml|
    ensures r.Err? ==> r.error.count < 0
  {
    match st.location
    case Text => InText(xml, i, opts, st)
    case CData => InCData(xml, i, st)
    case Comment => InComment(xml, i, st)
    case SpecialTag => InSpecialTag(xml, i, st)
    case StartTagName => InStartTag(xml, i, opts, st)
    case StartTag => InStartTag(xml, i, opts, st)
    case Attribute => InAttribute(xml, i, st)
    case AttributeValue => InAttributeValue(xml, i, st)
    case EndTag => InEndTag(xml, i, st)
  }

  /** The final branch: copy the character and track runs of line breaks. */
  function Other(xml: String, i: nat, st: State): (m: Moved)
    requires i < |xml|
    ensures m.next == i + 1 && m.state.output == st.output + [xml[i]]
    ensures m.state.location == st.location && m.state.lastNonTextLocation == st.lastNonTextLocation
    ensures m.state.indentLevel == st.indentLevel && m.state.attributeQuote == st.attributeQuote
    ensures CopiedFrom(xml, i, st, m)
  {
    var cc := xml[i];
    assert xml[i..i + 1] == [cc];
    var s :=
      if cc == '\n' then st.(lineBreakSpree := true)
      else if st.lineBreakSpree && !IsWhite(cc) then st.(lineBreakSpree := false)
      else st;
    Moved(Append(s, [cc]), i + 1)
  }

  function InText(xml: String, i: nat, opts: Options, st: State): (r: Result<Moved, RangeError>)
    requires i < |xml| && st.location == Text
    ensures r.Ok? ==> r.value.next == i + 1
    ensures r.Ok? ==> r.value.state.lastNonTextLocation == st.lastNonTextLocation
    ensures r.Ok? ==> r.value.state.attributeQuote == st.attributeQuote && r.value.state.location != AttributeValue
    ensures r.Err? ==> r.error.count < 0
  {
    var cc := xml[i];
    var nc, nnc, pc, ppc := At(xml, i + 1), At(xml, i + 2), At(xml, i - 1), At(xml, i - 2);
    if cc == '<' && nc == Some('!') && nnc == Some('[') then
      // entering CDATA
      if pc == Some('>') && ppc != Some('/') then Ok(Moved(Append(st, "<").(location := CData), i + 1))
      else Enter(AddIndent(st, opts, "", "<"), CData, i + 1)
    else if cc == '<' && nc == Some('!') && nnc == Some('-') then
      Enter(AddIndent(st, opts, "", "<"), Comment, i + 1)
    else if cc == '<' && (nc == Some('!') || nc == Some('?')) then
      Enter(AddIndent(st, opts, "", "<"), SpecialTag, i + 1)
    else if cc == '<' && nc != Some('/') && nc != Some('!') then
      // an opening tag: indented, on a new line after another tag, then one level deeper
      var r :=
        if pc == Some('>') && ppc != Some('/') then AddIndent(st, opts, opts.newLine, "<")
        else AddIndent(st.(output := TrimTrailingBlank(st.output)), opts, "", "<");
      if r.Err? then Err(r.error)
      else Ok(Moved(r.value.(indentLevel := st.indentLevel + 1, location := StartTagName), i + 1))
    else if cc == '<' && nc == Some('/') then
      // an end tag
      var s := st.(indentLevel := st.indentLevel - 1);
      var r :=
        if pc == Some('\n') || s.lineBreakSpree then
          AddIndent(s.(output := TrimTrailingBlank(s.output), lineBreakSpree := false), opts, "", "<")
        else if s.lastNonTextLocation == EndTag then
          AddIndent(s, opts, opts.newLine, "<")
        else if pc == Some('>') && ppc == Some('/') then
          AddIndent(s, opts, "", "<")
        else
          Ok(Append(s, "<"));
      Enter(r, EndTag, i + 1)
    else
      Ok(Other(xml, i, st))
  }

  function InCData(xml: String, i: nat, st: State): (r: Result<Moved, RangeError>)
    requires i < |xml|
    ensures r.Ok? && i < r.value.next <= |xml|
    ensures !OccursAt(xml, "]]>", i) ==> r.value == Other(xml, i, st)
    ensures r.Ok? ==> CopiedFrom(xml, i, st, r.value)
  {
    if xml[i] == ']' && At(xml, i + 1) == Some(']') && At(xml, i + 2) == Some('>') then
      assert xml[i..i + 3] == "]]>";
      Ok(Moved(Leave(Append(st, "]]>"), Text), i + 3))
    else
      Ok(Other(xml, i, st))
  }

  function InComment(xml: String, i: nat, st: State): (r: Result<Moved, RangeError>)
    requires i < |xml|
    ensures r.Ok? && i < r.value.next <= |xml|
    ensures !OccursAt(xml, "-->", i) ==> r.value == Other(xml, i, st)
    ensures r.Ok? ==> CopiedFrom(xml, i, st, r.value)
  {
    if xml[i] == '-' && At(xml, i + 1) == Some('-') && At(xml, i + 2) == Some('>') then
      assert xml[i..i + 3] == "-->";
      Ok(Moved(Leave(Append(st, "-->"), Text), i + 3))
    else
      Ok(Other(xml, i, st))
  }

  function InSpecialTag(xml: String, i: nat, st: State): (r: Result<Moved, RangeError>)
    requires i < |xml|
    ensures r.Ok? && r.value.next == i + 1
    ensures r.Ok? ==> CopiedFrom(xml, i, st, r.value)
  {
    if xml[i] == '>' then Ok(Moved(Leave(Append(st, ">"), Text), i + 1))
    else Ok(Other(xml, i, st))
  }

  /** Branches for `StartTagName` and `StartTag`. */
  function InStartTag(xml: String, i: nat, opts: Options, st: State): (r: Result<Moved, RangeError>)
    requires i < |xml| && (st.location == StartTagName || st.location == StartTag)
    ensures r.Ok? ==> r.value.next == i + 1
    ensures r.Ok? ==> r.value.state.attributeQuote == st.attributeQuote && r.value.state.location != AttributeValue
    ensures r.Err? ==> r.error.count < 0
  {
    var cc := xml[i];
    var pc := At(xml, i - 1);
    if st.location == StartTagName && cc == ' ' then
      Ok(Moved(Leave(Append(st, " "), StartTag), i + 1))
    else if st.location == StartTag && cc != ' ' && cc != '/' && cc != '>' then
      AttributeName(xml, i, opts, st)
    else if cc == '/' && pc != Some(' ') && opts.enforcePrettySelfClosingTagOnFormat then
      Ok(Moved(Append(st, " /"), i + 1))
    else if cc == '>' then
      Ok(CloseStartTag(xml, i, opts, st))
    else
      Ok(Other(xml, i, st))
  }

  /** The first character of an attribute name, on a new line after a value when attributes are split. */
  function AttributeName(xml: String, i: nat, opts: Options, st: State): (r: Result<Moved, RangeError>)
    requires i < |xml|
    ensures r.Ok? ==> r.value.next == i + 1 && r.value.state.location == Attribute
    ensures r.Ok? ==> r.value.state.attributeQuote == st.attributeQuote
    ensures r.Ok? ==> r.value.state.lastNonTextLocation == st.location
    ensures r.Err? ==> r.error.count < 0
  {
    if st.lastNonTextLocation == AttributeValue
       && ((opts.splitXmlnsOnFormat && XmlnsAt(xml, i)) || opts.splitAttributesOnFormat)
    then
      match AddIndent(st, opts, opts.newLine, [xml[i]])
      case Err(e) => Err(e)
      case Ok(s) => Ok(Moved(Leave(s, Attribute), i + 1))
    else
      Ok(Moved(Leave(Append(st, [xml[i]]), Attribute), i + 1))
  }

  /** The `>` closing a start tag; after `/` it ends a self-closing tag. */
  function CloseStartTag(xml: String, i: nat, opts: Options, st: State): (m: Moved)
    requires i < |xml|
    ensures m.next == i + 1 && m.state.location == Text && m.state.lastNonTextLocation == st.location
    ensures m.state.attributeQuote == st.attributeQuote
    ensures m.state.output == st.output + ">" + (
      if At(xml, i - 1) == Some('/') && At(xml, i + 1) != Some('\r') && At(xml, i + 1) != Some('\n')
      then opts.newLine else "")
  {
    var nc, pc := At(xml, i + 1), At(xml, i - 1);
    var s :=
      if pc == Some('/') then
        // a self-closing tag: one level back and a line break unless one follows
        Append(st, ">" + (if nc != Some('\r') && nc != Some('\n') then opts.newLine else "")).(indentLevel := st.indentLevel - 1)
      else
        Append(st, ">");
    Moved(Leave(s, Text), i + 1)
  }

  function InAttribute(xml: String, i: nat, st: State): (r: Result<Moved, RangeError>)
    requires i < |xml|
    ensures r.Ok? && r.value.next == i + 1
    ensures r.Ok? ==> CopiedFrom(xml, i, st, r.value)
  {
    var cc := xml[i];
    if cc == '"' || cc == '\'' then
      Ok(Moved(Leave(Append(st, [cc]), AttributeValue).(attributeQuote := Some(cc)), i + 1))
    else
      Ok(Other(xml, i, st))
  }

  function InAttributeValue(xml: String, i: nat, st: State): (r: Result<Moved, RangeError>)
    requires i < |xml|
    ensures r.Ok? && r.value.next == i + 1
    ensures r.Ok? ==> CopiedFrom(xml, i, st, r.value)
  {
    var cc := xml[i];
    if st.attributeQuote == Some(cc) then
      Ok(Moved(Leave(Append(st, [cc]), StartTag).(attributeQuote := None), i + 1))
    else
      Ok(Other(xml, i, st))
  }

  function InEndTag(xml: String, i: nat, st: State): (r: Result<Moved, RangeError>)
    requires i < |xml|
    ensures r.Ok? && r.value.next == i + 1
    ensures r.Ok? ==> CopiedFrom(xml, i, st, r.value)
  {
    if xml[i] == '>' then Ok(Moved(Leave(Append(st, ">"), Text), i + 1))
    else Ok(Other(xml, i, st))
  }

  function Run(xml: String, opts: Options, i: nat, st: State): Result<String, RangeError>
    requires i <= |xml|
    decreases |xml| - i
  {
    if i == |xml| then Ok(st.output)
    else
      match Step(xml, i, opts, st)
      case Err(e) => Err(e)
      case Ok(m) => Run(xml, opts, m.next, m.state)
  }

  function Steps(xml: String, opts: Options, i: nat, st: State, stop: nat): (r: Result<Moved, RangeError>)
    requires i <= |xml| && stop <= |xml|
    ensures r.Ok? ==> r.value.next <= |xml| && (i >= stop ==> r.value == Moved(st, i))
    decreases |xml| - i
  {
    if i >= stop then Ok(Moved(st, i))
    else
      match Step(xml, i, opts, st)
      case Err(e) => Err(e)
      case Ok(m) => Steps(xml, opts, m.next, m.state, stop)
  }

  function Format(xml: String, opts: Options, minify: String -> String): Result<String, RangeError> {
    Run(Prepared(xml, minify), opts, 0, Initial())
  }

  /** `formatXml`; the regular-expression minification is the parameter `minify`. */
  method FormatXml(xml0: String, opts: Options, minify: String -> String) returns (r: Result<String, RangeError>)
    ensures r == Format(xml0, opts, minify)
  {
    var xml := SanitizeComments(xml0);
    xml := minify(xml);
    xml := Unsanitized(xml);
    var st := Initial();
    var i := 0;
    while i < |xml|
      invariant i <= |xml|
      invariant Run(xml, opts, i, st) == Format(xml0, opts, minify)
      decreases |xml| - i
    {
      var m := Step(xml, i, opts, st);
      if m.Err? {
        return Err(m.error);
      }
      st, i := m.value.state, m.value.next;
    }
    return Ok(st.output);
  }

  // ---------------------------------------------------------------------
  // The output is the input with white space added and removed

  predicate Adds(st: State, m: Moved, consumed: String) {
    Squeeze(m.state.output) == Squeeze(st.output) + Squeeze(consumed)
  }

  lemma IndentSqueeze(out: String, pre: String, opts: Options, level: int, c: String)
    requires AllWhite(pre) && Indent(opts, level).Ok?
    ensures Squeeze(out + pre + Indent(opts, level).value + c) == Squeeze(out) + Squeeze(c)
  {
    SqueezePadded(out, pre, Indent(opts, level).value, c);
  }

  lemma StepSqueeze(xml: String, i: nat, opts: Options, st: State)
    requires i < |xml| && AllWhite(opts.newLine)
    requires Step(xml, i, opts, st).Ok?
    ensures var m := Step(xml, i, opts, st).value; Adds(st, m, xml[i..m.next])
  {
    var m := Step(xml, i, opts, st).value;
    match st.location
    case Text =>
      TextSqueeze(xml, i, opts, st);
      assert xml[i..m.next] == [xml[i]];
    case StartTagName =>
      StartTagSqueeze(xml, i, opts, st);
      assert xml[i..m.next] == [xml[i]];
    case StartTag =>
      StartTagSqueeze(xml, i, opts, st);
      assert xml[i..m.next] == [xml[i]];
    case _ =>
      CopiedSqueeze(xml, i, st, m);
  }

  /** The turn appended exactly the characters it consumed. */
  predicate CopiedFrom(xml: String, i: nat, st: State, m: Moved) {
    i <= m.next <= |xml| && m.state.output == st.output + xml[i..m.next]
  }

  lemma CopiedSqueeze(xml: String, i: nat, st: State, m: Moved)
    requires CopiedFrom(xml, i, st, m)
    ensures Adds(st, m, xml[i..m.next])
  {
    SqueezeAppend(st.output, xml[i..m.next]);
  }

  lemma TextSqueeze(xml: String, i: nat, opts: Options, st: State)
    requires i < |xml| && AllWhite(opts.newLine)
    requires st.location == Text && InText(xml, i, opts, st).Ok?
    ensures Adds(st, InText(xml, i, opts, st).value, [xml[i]])
  {
    var cc := xml[i];
    var nc, nnc, pc, ppc := At(xml, i + 1), At(xml, i + 2), At(xml, i - 1), At(xml, i - 2);
    var out := st.output;
    var lt := "<";
    assert AllWhite("");
    SqueezeAppend(out, [cc]);
    if cc == '<' {
      assert [cc] == lt;
      TrimTrailingBlankSqueeze(out);
      if nc == Some('!') && nnc == Some('[') {
        if !(pc == Some('>') && ppc != Some('/')) { IndentSqueeze(out, "", opts, st.indentLevel, lt); }
      } else if nc == Some('!') && nnc == Some('-') {
        IndentSqueeze(out, "", opts, st.indentLevel, lt);
      } else if nc == Some('!') || nc == Some('?') {
        IndentSqueeze(out, "", opts, st.indentLevel, lt);
      } else if nc != Some('/') && nc != Some('!') {
        if pc == Some('>') && ppc != Some('/') {
          IndentSqueeze(out, opts.newLine, opts, st.indentLevel, lt);
        } else {
          IndentSqueeze(TrimTrailingBlank(out), "", opts, st.indentLevel, lt);
        }
      } else if nc == Some('/') {
        if pc == Some('\n') || st.lineBreakSpree {
          IndentSqueeze(TrimTrailingBlank(out), "", opts, st.indentLevel - 1, lt);
        } else if st.lastNonTextLocation == EndTag {
          IndentSqueeze(out, opts.newLine, opts, st.indentLevel - 1, lt);
        } else if pc == Some('>') && ppc == Some('/') {
          IndentSqueeze(out, "", opts, st.indentLevel - 1, lt);
        }
      }
    }
  }

  lemma StartTagSqueeze(xml: String, i: nat, opts: Options, st: State)
    requires i < |xml| && AllWhite(opts.newLine)
    requires (st.location == StartTagName || st.location == StartTag) && InStartTag(xml, i, opts, st).Ok?
    ensures Adds(st, InStartTag(xml, i, opts, st).value, [xml[i]])
  {
    var cc := xml[i];
    var out := st.output;
    var m := InStartTag(xml, i, opts, st).value;
    if st.location == StartTagName && cc == ' ' {
      assert m.state.output == out + [cc];
      SqueezeAppend(out, [cc]);
    } else if st.location == StartTag && cc != ' ' && cc != '/' && cc != '>' {
      SqueezeAppend(out, [cc]);
      if Indent(opts, st.indentLevel).Ok? {
        IndentSqueeze(out, opts.newLine, opts, st.indentLevel, [cc]);
      }
    } else if cc == '/' && At(xml, i - 1) != Some(' ') && opts.enforcePrettySelfClosingTagOnFormat {
      assert m.state.output == out + " /" == out + " " + [cc];
      SpaceThenSqueeze(out, [cc]);
    } else if cc == '>' {
      CloseStartTagSqueeze(xml, i, opts, st);
    } else {
      assert m == Other(xml, i, st);
      SqueezeAppend(out, [cc]);
    }
  }

  lemma CloseStartTagSqueeze(xml: String, i: nat, opts: Options, st: State)
    requires i < |xml| && xml[i] == '>' && AllWhite(opts.newLine)
    ensures Adds(st, CloseStartTag(xml, i, opts, st), [xml[i]])
  {
    var tail :=
      if At(xml, i - 1) == Some('/') && At(xml, i + 1) != Some('\r') && At(xml, i + 1) != Some('\n')
      then opts.newLine else "";
    assert [xml[i]] == ">";
    assert AllWhite(tail) by {
      assert AllWhite("");
    }
    SqueezeWhiteTail(st.output, ">", tail);
  }

  lemma {:induction false} RunSqueeze(xml: String, opts: Options, i: nat, st: State)
    requires i <= |xml| && AllWhite(opts.newLine) && Run(xml, opts, i, st).Ok?
    ensures Squeeze(Run(xml, opts, i, st).value) == Squeeze(st.output) + Squeeze(xml[i..])
    decreases |xml| - i
  {
    if i < |xml| {
      RunStep(xml, opts, i, st);
      var m := Step(xml, i, opts, st).value;
      StepSqueeze(xml, i, opts, st);
      RunSqueeze(xml, opts, m.next, m.state);
      SqueezeSplit(xml, i, m.next);
      SeqAssoc(Squeeze(st.output), Squeeze(xml[i..m.next]), Squeeze(xml[m.next..]));
    }
  }

  /** One turn of the loop, when there is a character left. */
  lemma RunStep(xml: String, opts: Options, i: nat, st: State)
    requires i < |xml|
    ensures Step(xml, i, opts, st).Err? ==> Run(xml, opts, i, st) == Err(Step(xml, i, opts, st).error)
    ensures Step(xml, i, opts, st).Ok? ==>
      var m := Step(xml, i, opts, st).value; Run(xml, opts, i, st) == Run(xml, opts, m.next, m.state)
  {
  }

  /** With a white-space `newLine`, formatting only adds and removes white space. */
  lemma FormatOnlyMovesWhiteSpace(xml: String, opts: Options, minify: String -> String)
    requires AllWhite(opts.newLine) && Format(xml, opts, minify).Ok?
    ensures Squeeze(Format(xml, opts, minify).value) == Squeeze(Prepared(xml, minify))
  {
    RunSqueeze(Prepared(xml, minify), opts, 0, Initial());
  }

  // ---------------------------------------------------------------------
  // Indentation

  /** An opening tag writes the current indentation and goes one level deeper. */
  lemma OpeningTagIndents(xml: String, i: nat, opts: Options, st: State)
    requires i < |xml| && st.location == Text && xml[i] == '<'
    requires At(xml, i + 1) != Some('/') && At(xml, i + 1) != Some('!') && At(xml, i + 1) != Some('?')
    ensures Step(xml, i, opts, st).Ok? <==> st.indentLevel >= 0
    ensures Step(xml, i, opts, st).Ok? ==>
      var m := Step(xml, i, opts, st).value;
      m.state.location == StartTagName && m.state.indentLevel == st.indentLevel + 1
  {
  }

  /** An end tag takes one level back. */
  lemma EndTagDedents(xml: String, i: nat, opts: Options, st: State)
    requires i < |xml| && st.location == Text && xml[i] == '<' && At(xml, i + 1) == Some('/')
    requires Step(xml, i, opts, st).Ok?
    ensures var m := Step(xml, i, opts, st).value;
      m.state.location == EndTag && m.state.indentLevel == st.indentLevel - 1
  {
  }

  /**
   * An end tag right after another end tag, not after a line break, goes on
   * a new line at the level one less than the current; at level zero there
   * is no such indentation and formatting fails.
   */
  lemma EndTagAfterEndTagOnNewLine(xml: String, i: nat, opts: Options, st: State)
    requires i < |xml| && st.location == Text && xml[i] == '<' && At(xml, i + 1) == Some('/')
    requires At(xml, i - 1) != Some('\n') && !st.lineBreakSpree && st.lastNonTextLocation == EndTag
    ensures Step(xml, i, opts, st).Ok? <==> st.indentLevel >= 1
    ensures Step(xml, i, opts, st).Err? ==> Step(xml, i, opts, st).error == InvalidCountValue(st.indentLevel - 1)
    ensures Step(xml, i, opts, st).Ok? ==>
      Step(xml, i, opts, st).value.state.output == st.output + opts.newLine + Indent(opts, st.indentLevel - 1).value + "<"
  {
  }

  /** The `>` of `/>` takes one level back; any other `>` of a start tag keeps it. */
  lemma StartTagCloseIndent(xml: String, i: nat, opts: Options, st: State)
    requires i < |xml| && (st.location == StartTag || st.location == StartTagName) && xml[i] == '>'
    ensures Step(xml, i, opts, st).Ok?
    ensures var m := Step(xml, i, opts, st).value;
      m.state.location == Text
      && m.state.indentLevel == st.indentLevel - (if At(xml, i - 1) == Some('/') then 1 else 0)
  {
  }

  /** The level changes only at opening tags, end tags and `/>`. */
  lemma IndentChangesOnlyAtTags(xml: String, i: nat, opts: Options, st: State)
    requires i < |xml| && Step(xml, i, opts, st).Ok?
    requires Step(xml, i, opts, st).value.state.indentLevel != st.indentLevel
    ensures (st.location == Text && xml[i] == '<' && At(xml, i + 1) != Some('!') && At(xml, i + 1) != Some('?'))
      || ((st.location == StartTag || st.location == StartTagName) && xml[i] == '>' && At(xml, i - 1) == Some('/'))
  {
  }

  // ---------------------------------------------------------------------
  // Locations

  /**
   * `lastNonTextLocation` records the location being left whenever a
   * location other than `Text` is left, and is otherwise unchanged.
   */
  lemma LeavingRecordsLocation(xml: String, i: nat, opts: Options, st: State)
    requires i < |xml| && Step(xml, i, opts, st).Ok?
    ensures var m := Step(xml, i, opts, st).value;
      m.state.lastNonTextLocation
        == if m.state.location != st.location && st.location != Text then st.location else st.lastNonTextLocation
  {
    if st.location == StartTag || st.location == StartTagName {
      var m := Step(xml, i, opts, st).value;
      assert m == InStartTag(xml, i, opts, st).value;
    }
  }

  // ---------------------------------------------------------------------
  // Attribute values, CDATA sections and comments

  predicate QuoteKept(st: State) {
    st.location == AttributeValue ==> st.attributeQuote == Some('"') || st.attributeQuote == Some('\'')
  }

  lemma StepKeepsQuote(xml: String, i: nat, opts: Options, st: State)
    requires i < |xml| && QuoteKept(st) && Step(xml, i, opts, st).Ok?
    ensures QuoteKept(Step(xml, i, opts, st).value.state)
  {
  }

  /** An attribute value is copied, and it is left exactly on the quote that opened it. */
  lemma AttributeValueEndsOnItsQuote(xml: String, i: nat, opts: Options, st: State)
    requires i < |xml| && st.location == AttributeValue
    ensures Step(xml, i, opts, st).Ok?
    ensures var m := Step(xml, i, opts, st).value;
      m.state.output == st.output + [xml[i]]
      && (m.state.location == AttributeValue <==> st.attributeQuote != Some(xml[i]))
      && (m.state.location != AttributeValue ==> m.state.location == StartTag && m.state.attributeQuote == None)
  {
  }

  predicate Verbatim(loc: Location, close: String) {
    (loc == CData && close == "]]>") || (loc == Comment && close == "-->")
  }

  /** Inside CDATA or a comment every character up to the terminator is copied. */
  lemma {:induction false} VerbatimBody(xml: String, opts: Options, i: nat, st: State, j: nat, loc: Location, close: String)
    requires Verbatim(loc, close) && st.location == loc && i <= j <= |xml|
    requires forall k :: i <= k < j ==> !OccursAt(xml, close, k)
    ensures Steps(xml, opts, i, st, j).Ok?
    ensures var m := Steps(xml, opts, i, st, j).value;
      m.next == j && m.state.output == st.output + xml[i..j] && m.state.location == loc
    decreases j - i
  {
    if i < j {
      var m := Other(xml, i, st);
      assert !OccursAt(xml, close, i);
      VerbatimStep(xml, opts, i, st, loc, close);
      StepsStep(xml, opts, i, st, j);
      VerbatimBody(xml, opts, i + 1, m.state, j, loc, close);
      CopyOneMore(st.output, xml, i, j);
    }
  }

  /** Inside CDATA or a comment, a character that does not start the terminator is copied. */
  lemma VerbatimStep(xml: String, opts: Options, i: nat, st: State, loc: Location, close: String)
    requires Verbatim(loc, close) && st.location == loc && i < |xml| && !OccursAt(xml, close, i)
    ensures Step(xml, i, opts, st) == Ok(Other(xml, i, st))
  {
    if loc == CData {
      assert Step(xml, i, opts, st) == InCData(xml, i, st);
    } else {
      assert Step(xml, i, opts, st) == InComment(xml, i, st);
    }
  }

  /** One turn of the bounded loop, before it reaches `stop`. */
  lemma StepsStep(xml: String, opts: Options, i: nat, st: State, stop: nat)
    requires i < stop <= |xml|
    ensures Step(xml, i, opts, st).Err? ==> Steps(xml, opts, i, st, stop) == Err(Step(xml, i, opts, st).error)
    ensures Step(xml, i, opts, st).Ok? ==>
      var m := Step(xml, i, opts, st).value; Steps(xml, opts, i, st, stop) == Steps(xml, opts, m.next, m.state, stop)
  {
  }

  /** The terminator is copied whole, returns to `Text` and is remembered as the last location. */
  lemma VerbatimEnd(xml: String, opts: Options, i: nat, st: State, loc: Location, close: String)
    requires Verbatim(loc, close) && st.location == loc && OccursAt(xml, close, i)
    ensures Step(xml, i, opts, st).Ok?
    ensures var m := Step(xml, i, opts, st).value;
      m.next == i + 3 && m.state.output == st.output + close
      && m.state.location == Text && m.state.lastNonTextLocation == loc
  {
    assert xml[i..i + 3][0] == xml[i] && xml[i..i + 3][1] == xml[i + 1] && xml[i..i + 3][2] == xml[i + 2];
  }
}
