/**
 * `V2XmlFormatter.formatXml` of the XML extension, version 2.4.0: a
 * character loop that copies the (sanitised, minified, unsanitised) text and
 * adds line breaks and indentation around tags. The loop's position is a
 * stack of locations; only its top and its last entry other than `Text` are
 * ever consulted.
 */
module XmlFormatter {
  import opened Wrappers
  import opened JsString
  import opened XmlText

  /** The loop's variables: `output`, `indentLevel`, `attributeQuote`, ... and `locationHistory`. */
  datatype State = State(
    output: String,
    indentLevel: int,
    attributeQuote: Option<char>,
    lineBreakSpree: bool,
    lastWordCharacter: Option<char>,
    inMixedContent: bool,
    history: seq<Location>)

  /** The state after one turn of the loop and the index the next turn reads. */
  datatype Moved = Moved(state: State, next: nat)

  /** The state the loop starts from: empty output, the initial level, and `[Text]`. */
  function Initial(opts: Options): (st: State)
    ensures st.history == [Text] && st.output == [] && st.indentLevel == opts.initialIndentLevel
    ensures QuoteKept(st)
  {
    State([], opts.initialIndentLevel, None, false, None, false, [Text])
  }

  /** `isLocation(loc)`: the top of the location stack is `loc`. */
  predicate IsLocation(st: State, loc: Location) {
    |st.history| > 0 && st.history[|st.history| - 1] == loc
  }

  /** The top of the location stack, if there is one. */
  function Top(st: State): (r: Option<Location>)
    ensures forall loc :: IsLocation(st, loc) <==> r == Some(loc)
  {
    if |st.history| > 0 then Some(st.history[|st.history| - 1]) else None
  }

  /** The last entry of the history other than `Text`, if any. */
  function LastNonText(h: seq<Location>): (r: Option<Location>)
    ensures r.None? <==> forall k :: 0 <= k < |h| ==> h[k] == Text
    ensures r.Some? ==> r.value != Text && exists k :: 0 <= k < |h| && h[k] == r.value && NoneButText(h, k + 1)
    decreases |h|
  {
    if h == [] then None
    else if h[|h| - 1] != Text then
      assert NoneButText(h, |h|);
      Some(h[|h| - 1])
    else
      var r := LastNonText(h[..|h| - 1]);
      assert forall k :: 0 <= k < |h| - 1 ==> h[..|h| - 1][k] == h[k];
      if r.Some? then
        var k :| 0 <= k < |h| - 1 && h[..|h| - 1][k] == r.value && NoneButText(h[..|h| - 1], k + 1);
        assert NoneButText(h, k + 1);
        r
      else r
  }

  /** Every entry of `h` from index `k` on is `Text`. */
  predicate NoneButText(h: seq<Location>, k: nat) {
    forall m :: k <= m < |h| ==> h[m] == Text
  }

  /** `isLastNonTextLocation`: the loop walking back from the end past the `Text` entries. */
  method IsLastNonTextLocation(history: seq<Location>, loc: Location) returns (b: bool)
    ensures b <==> LastNonText(history) == Some(loc)
  {
    var i := |history| - 1;
    while i >= 0
      invariant -1 <= i < |history|
      invariant LastNonText(history) == LastNonText(history[..i + 1])
      decreases i
    {
      if history[i] != Text {
        assert history[..i + 1][i] == history[i];
        return loc == history[i];
      }
      assert history[..i + 1][..i] == history[..i];
      i := i - 1;
    }
    return false;
  }

  /** `setLocation`: push `loc`; entering `Text` forgets the last word character. */
  function SetLocation(st: State, loc: Location): (r: State)
    ensures r.history == st.history + [loc] && IsLocation(r, loc)
    ensures r.attributeQuote == st.attributeQuote && r.output == st.output && r.indentLevel == st.indentLevel
    ensures r.lastWordCharacter == if loc == Text then None else st.lastWordCharacter
  {
    st.(history := st.history + [loc],
        lastWordCharacter := if loc == Text then None else st.lastWordCharacter)
  }

  /** The condition `refreshMixedContentFlag` stores: after a tag, with a word character seen. */
  predicate Mixed(st: State) {
    (LastNonText(st.history) == Some(StartTag) || LastNonText(st.history) == Some(EndTag))
    && st.lastWordCharacter.Some?
  }

  function RefreshMixedContentFlag(st: State): (r: State)
    ensures r.inMixedContent == Mixed(st) && r.(inMixedContent := st.inMixedContent) == st
  {
    st.(inMixedContent := Mixed(st))
  }

  /** Appends `before`, the current indentation and `after`; raises for a negative level. */
  function AddIndent(st: State, opts: Options, before: String, after: String): (r: Result<State, RangeError>)
    ensures r.Err? <==> st.indentLevel < 0
    ensures r.Ok? ==> r.value == st.(output := st.output + before + Indent(opts, st.indentLevel).value + after)
  {
    match Indent(opts, st.indentLevel)
    case Err(e) => Err(e)
    case Ok(ind) => Ok(st.(output := st.output + before + ind + after))
  }

  function Deeper(r: Result<State, RangeError>): Result<State, RangeError> {
    match r
    case Err(e) => Err(e)
    case Ok(s) => Ok(s.(indentLevel := s.indentLevel + 1))
  }

  function Enter(r: Result<State, RangeError>, loc: Location, next: nat): (m: Result<Moved, RangeError>)
    ensures m.Ok? <==> r.Ok?
    ensures m.Ok? ==> IsLocation(m.value.state, loc) && m.value.state.attributeQuote == r.value.attributeQuote
  {
    match r
    case Err(e) => Err(e)
    case Ok(s) => Ok(Moved(SetLocation(s, loc), next))
  }

  /** The loop variables kept by one turn apart from the output. */
  function Append(st: State, s: String): State {
    st.(output := st.output + s)
  }

  /**
   * One turn of the `for` loop at index `i`: the first branch whose
   * condition holds. Every branch but the last tests the top of the location
   * stack, so the turn dispatches on that location; each part keeps the
   * source's order and ends in the shared final branch, which is all that is
   * left when the stack is empty.
   */
  function Step(xml: String, i: nat, opts: Options, st: State): (r: Result<Moved, RangeError>)
    requires i < |xml|
    ensures r.Ok? ==> i < r.value.next <= |xml|
    ensures r.Err? ==> r.error.count < 0
  {
    match Top(st)
    case Some(Text) => InText(xml, i, opts, st)
    case Some(CData) => InCData(xml, i, st)
    case Some(Comment) => InComment(xml, i, st)
    case Some(SpecialTag) => InSpecialTag(xml, i, st)
    case Some(StartTagName) => InStartTag(xml, i, opts, st)
    case Some(StartTag) => InStartTag(xml, i, opts, st)
    case Some(Attribute) => InAttribute(xml, i, st)
    case Some(AttributeValue) => InAttributeValue(xml, i, st)
    case Some(EndTag) => InEndTag(xml, i, st)
    case None => Ok(Other(xml, i, st))
  }

  /** The final branch: copy the character, tracking line-break runs and the last word character. */
  function Other(xml: String, i: nat, st: State): (m: Moved)
    requires i < |xml|
    ensures m.next == i + 1 && m.state.output == st.output + [xml[i]]
    ensures m.state.history == st.history && m.state.indentLevel == st.indentLevel
    ensures m.state.attributeQuote == st.attributeQuote
    ensures ForgetsWordOnText(st, m) && CopiedFrom(xml, i, st, m)
  {
    var cc := xml[i];
    var s1 :=
      if cc == '\n' then st.(lineBreakSpree := true, lastWordCharacter := None)
      else if st.lineBreakSpree && !IsWhite(cc) then st.(lineBreakSpree := false)
      else st;
    var s2 := if IsWordChar(cc) then s1.(lastWordCharacter := Some(cc)) else s1;
    assert xml[i..i + 1] == [cc];
    Moved(Append(s2, [cc]), i + 1)
  }

  /** The turn appended exactly the characters it consumed. */
  predicate CopiedFrom(xml: String, i: nat, st: State, m: Moved) {
    i <= m.next <= |xml| && m.state.output == st.output + xml[i..m.next]
  }

  /** A turn that leaves some other location for `Text` forgets the last word character. */
  predicate ForgetsWordOnText(st: State, m: Moved) {
    IsLocation(m.state, Text) && !IsLocation(st, Text) ==> m.state.lastWordCharacter == None
  }

  /** The quote is kept, and `AttributeValue` is not entered. */
  predicate KeepsQuote(st: State, m: Moved) {
    m.state.attributeQuote == st.attributeQuote
    && (IsLocation(m.state, AttributeValue) ==> IsLocation(st, AttributeValue))
  }

  /** Branches for `Text`: CDATA, comment, special tag, opening tag, end tag. */
  function InText(xml: String, i: nat, opts: Options, st: State): (r: Result<Moved, RangeError>)
    requires i < |xml|
    ensures r.Ok? ==> r.value.next == i + 1 && KeepsQuote(st, r.value)
    ensures r.Err? ==> r.error.count < 0
  {
    var cc := xml[i];
    var nc, nnc, pc, ppc := At(xml, i + 1), At(xml, i + 2), At(xml, i - 1), At(xml, i - 2);
    if cc == '<' && nc == Some('!') && nnc == Some('[') then
      // entering CDATA
      if pc == Some('>') && ppc != Some('/') then Ok(Moved(SetLocation(Append(st, "<"), CData), i + 1))
      else Enter(AddIndent(st, opts, "", "<"), CData, i + 1)
    else if cc == '<' && nc == Some('!') && nnc == Some('-') then
      Enter(AddIndent(st, opts, "", "<"), Comment, i + 1)
    else if cc == '<' && (nc == Some('!') || nc == Some('?')) then
      Enter(AddIndent(st, opts, "", "<"), SpecialTag, i + 1)
    else if cc == '<' && nc != Some('/') && nc != Some('!') then
      OpeningTag(xml, i, opts, st)
    else if cc == '<' && nc == Some('/') then
      EndTagStart(xml, i, opts, st)
    else
      Ok(Other(xml, i, st))
  }

  /** The `<` of an opening tag: one level deeper on a fresh line, unless in mixed content. */
  function OpeningTag(xml: String, i: nat, opts: Options, st: State): (r: Result<Moved, RangeError>)
    requires i < |xml|
    ensures r.Err? <==> !Mixed(st) && st.indentLevel < 0
    ensures r.Err? ==> r.error.count < 0
    ensures r.Ok? ==> var s := r.value.state;
      r.value.next == i + 1 && IsLocation(s, StartTagName) && s.attributeQuote == st.attributeQuote
      && s.indentLevel == st.indentLevel + (if Mixed(st) then 0 else 1) && s.inMixedContent == Mixed(st)
  {
    Enter(OpeningTagIndent(RefreshMixedContentFlag(st), opts, At(xml, i - 1), At(xml, i - 2)), StartTagName, i + 1)
  }

  /** What the `<` of an opening tag appends, given the characters before it. */
  function OpeningTagIndent(s: State, opts: Options, pc: Option<char>, ppc: Option<char>): (r: Result<State, RangeError>)
    ensures r.Err? <==> !s.inMixedContent && s.indentLevel < 0
    ensures r.Err? ==> r.error == InvalidCountValue(s.indentLevel)
    ensures r.Ok? ==> (r.value.history == s.history && r.value.attributeQuote == s.attributeQuote
                       && r.value.inMixedContent == s.inMixedContent && r.value.lastWordCharacter == s.lastWordCharacter
                       && r.value.indentLevel == s.indentLevel + (if s.inMixedContent then 0 else 1))
  {
    if pc == Some('>') && ppc != Some('/') && !s.inMixedContent then
      Deeper(AddIndent(s, opts, opts.newLine, "<"))
    else if !s.inMixedContent then
      Deeper(AddIndent(s.(output := TrimTrailingBlank(s.output)), opts, "", "<"))
    else
      // the decrement for mixed content cancels the increment every opening tag makes
      Ok(Append(s, "<"))
  }

  /** The `<` of `</`: one level back, then a line break or indentation as the context asks. */
  function EndTagStart(xml: String, i: nat, opts: Options, st: State): (r: Result<Moved, RangeError>)
    requires i < |xml|
    ensures r.Err? ==> r.error.count < 0 && r.error.count == st.indentLevel - 1
    ensures r.Ok? ==> var s := r.value.state;
      r.value.next == i + 1 && IsLocation(s, EndTag) && s.attributeQuote == st.attributeQuote
      && s.indentLevel == st.indentLevel - 1
  {
    var s := RefreshMixedContentFlag(st.(indentLevel := st.indentLevel - 1));
    Enter(EndTagIndent(s, opts, At(xml, i - 1), At(xml, i - 2)), EndTag, i + 1)
  }

  /** What the `<` of `</` appends, given the characters before it. */
  function EndTagIndent(s: State, opts: Options, pc: Option<char>, ppc: Option<char>): (r: Result<State, RangeError>)
    ensures r.Err? ==> r.error == InvalidCountValue(s.indentLevel) && s.indentLevel < 0
    ensures r.Ok? ==> (r.value.history == s.history && r.value.attributeQuote == s.attributeQuote
                       && r.value.indentLevel == s.indentLevel)
  {
    if (pc == Some('\n') || s.lineBreakSpree) && !s.inMixedContent then
      AddIndent(s.(output := TrimTrailingBlank(s.output), lineBreakSpree := false), opts, "", "<")
    else if LastNonText(s.history) == Some(EndTag) && !s.inMixedContent then
      AddIndent(s, opts, opts.newLine, "<")
    else if pc == Some('>') && ppc == Some('/') && !s.inMixedContent then
      AddIndent(s, opts, "", "<")
    else
      Ok(Append(s, "<"))
  }

  function InCData(xml: String, i: nat, st: State): (r: Result<Moved, RangeError>)
    requires i < |xml|
    ensures r.Ok? && i < r.value.next <= |xml|
    ensures !OccursAt(xml, "]]>", i) ==> r.value == Other(xml, i, st)
    ensures r.Ok? ==> ForgetsWordOnText(st, r.value) && (QuoteKept(st) ==> QuoteKept(r.value.state))
    ensures r.Ok? ==> CopiedFrom(xml, i, st, r.value) && r.value.state.indentLevel == st.indentLevel
  {
    if xml[i] == ']' && At(xml, i + 1) == Some(']') && At(xml, i + 2) == Some('>') then
      assert xml[i..i + 3] == "]]>";
      Ok(Moved(SetLocation(Append(st, "]]>"), Text), i + 3))
    else
      Ok(Other(xml, i, st))
  }

  function InComment(xml: String, i: nat, st: State): (r: Result<Moved, RangeError>)
    requires i < |xml|
    ensures r.Ok? && i < r.value.next <= |xml|
    ensures !OccursAt(xml, "-->", i) ==> r.value == Other(xml, i, st)
    ensures r.Ok? ==> ForgetsWordOnText(st, r.value) && (QuoteKept(st) ==> QuoteKept(r.value.state))
    ensures r.Ok? ==> CopiedFrom(xml, i, st, r.value) && r.value.state.indentLevel == st.indentLevel
  {
    if xml[i] == '-' && At(xml, i + 1) == Some('-') && At(xml, i + 2) == Some('>') then
      assert xml[i..i + 3] == "-->";
      Ok(Moved(SetLocation(Append(st, "-->"), Text), i + 3))
    else
      Ok(Other(xml, i, st))
  }

  function InSpecialTag(xml: String, i: nat, st: State): (r: Result<Moved, RangeError>)
    requires i < |xml|
    ensures r.Ok? && r.value.next == i + 1
    ensures r.Ok? ==> ForgetsWordOnText(st, r.value) && (QuoteKept(st) ==> QuoteKept(r.value.state))
    ensures r.Ok? ==> CopiedFrom(xml, i, st, r.value) && r.value.state.indentLevel == st.indentLevel
  {
    if xml[i] == '>' then Ok(Moved(SetLocation(Append(st, ">"), Text), i + 1))
    else Ok(Other(xml, i, st))
  }

  /** Branches for `StartTagName` and `StartTag`: a space, an attribute name, `/`, `>`. */
  function InStartTag(xml: String, i: nat, opts: Options, st: State): (r: Result<Moved, RangeError>)
    requires i < |xml|
    ensures r.Ok? ==> r.value.next == i + 1 && KeepsQuote(st, r.value)
    ensures r.Err? ==> r.error.count < 0
    ensures r.Ok? ==> ForgetsWordOnText(st, r.value)
    ensures r.Ok? && r.value.state.indentLevel != st.indentLevel ==> xml[i] == '>' && At(xml, i - 1) == Some('/')
  {
    var cc := xml[i];
    var pc := At(xml, i - 1);
    if IsLocation(st, StartTagName) && cc == ' ' then
      Ok(Moved(SetLocation(Append(st, " "), StartTag), i + 1))
    else if IsLocation(st, StartTag) && cc != ' ' && cc != '/' && cc != '>' then
      AttributeName(xml, i, opts, st)
    else if cc == '/' && pc != Some(' ') && opts.enforcePrettySelfClosingTagOnFormat then
      Ok(Moved(Append(st, " /"), i + 1))
    else if cc == '>' then
      Ok(CloseStartTag(xml, i, opts, st))
    else
      Ok(Other(xml, i, st))
  }

  /** The first character of an attribute name, on a new line when attributes are split. */
  function AttributeName(xml: String, i: nat, opts: Options, st: State): (r: Result<Moved, RangeError>)
    requires i < |xml|
    ensures r.Ok? ==> r.value.next == i + 1 && IsLocation(r.value.state, Attribute)
    ensures r.Ok? ==> r.value.state.indentLevel == st.indentLevel
    ensures r.Err? ==> r.error.count < 0
  {
    var h := st.history;
    if |h| >= 2 && h[|h| - 2] == AttributeValue
       && ((opts.splitXmlnsOnFormat && XmlnsAt(xml, i)) || opts.splitAttributesOnFormat)
    then
      Enter(AddIndent(st, opts, opts.newLine, [xml[i]]), Attribute, i + 1)
    else
      Ok(Moved(SetLocation(Append(st, [xml[i]]), Attribute), i + 1))
  }

  /** The `>` closing a start tag; after `/` it ends a self-closing tag. */
  function CloseStartTag(xml: String, i: nat, opts: Options, st: State): (m: Moved)
    requires i < |xml|
    ensures m.next == i + 1 && IsLocation(m.state, Text) && m.state.lastWordCharacter == None
    ensures m.state.indentLevel == st.indentLevel - (if At(xml, i - 1) == Some('/') then 1 else 0)
    ensures m.state.output == st.output + ">" + (
      if At(xml, i - 1) == Some('/') && At(xml, i + 1) != Some('\r') && At(xml, i + 1) != Some('\n')
      then opts.newLine else "")
  {
    var nc, pc := At(xml, i + 1), At(xml, i - 1);
    var s :=
      if pc == Some('/') then
        // a self-closing tag: one level back and a line break unless one follows
        Append(st, ">" + (if nc != Some('\r') && nc != Some('\n') then opts.newLine else "")).(indentLevel := st.indentLevel - 1)
      else
        Append(st, ">");
    // never straight from StartTagName to Text
    var s' := if IsLocation(st, StartTagName) then SetLocation(s, StartTag) else s;
    Moved(SetLocation(s', Text), i + 1)
  }

  function InAttribute(xml: String, i: nat, st: State): (r: Result<Moved, RangeError>)
    requires i < |xml|
    ensures r.Ok? && r.value.next == i + 1
    ensures r.Ok? ==> ForgetsWordOnText(st, r.value) && (QuoteKept(st) ==> QuoteKept(r.value.state))
    ensures r.Ok? ==> CopiedFrom(xml, i, st, r.value) && r.value.state.indentLevel == st.indentLevel
  {
    var cc := xml[i];
    if cc == '"' || cc == '\'' then
      Ok(Moved(SetLocation(Append(st, [cc]), AttributeValue).(attributeQuote := Some(cc)), i + 1))
    else
      Ok(Other(xml, i, st))
  }

  function InAttributeValue(xml: String, i: nat, st: State): (r: Result<Moved, RangeError>)
    requires i < |xml|
    ensures r.Ok? && r.value.next == i + 1
    ensures r.Ok? ==> ForgetsWordOnText(st, r.value) && (QuoteKept(st) ==> QuoteKept(r.value.state))
    ensures r.Ok? ==> CopiedFrom(xml, i, st, r.value) && r.value.state.indentLevel == st.indentLevel
  {
    var cc := xml[i];
    if st.attributeQuote == Some(cc) then
      Ok(Moved(SetLocation(Append(st, [cc]), StartTag).(attributeQuote := None), i + 1))
    else
      Ok(Other(xml, i, st))
  }

  function InEndTag(xml: String, i: nat, st: State): (r: Result<Moved, RangeError>)
    requires i < |xml|
    ensures r.Ok? && r.value.next == i + 1
    ensures r.Ok? ==> ForgetsWordOnText(st, r.value) && (QuoteKept(st) ==> QuoteKept(r.value.state))
    ensures r.Ok? ==> CopiedFrom(xml, i, st, r.value) && r.value.state.indentLevel == st.indentLevel
  {
    if xml[i] == '>' then
      Ok(Moved(SetLocation(Append(st, ">"), Text).(inMixedContent := false), i + 1))
    else
      Ok(Other(xml, i, st))
  }

  /** The loop from index `i` to the end of the text. */
  function Run(xml: String, opts: Options, i: nat, st: State): Result<String, RangeError>
    requires i <= |xml|
    decreases |xml| - i
  {
    if i == |xml| then Ok(st.output)
    else
      match Step(xml, i, opts, st)
      case Err(e) => Err(e)
      case Ok(m) => Run(xml, opts, m.next, m.state)
  }

  /** The loop from index `i` until it reaches `stop` or passes it. */
  function Steps(xml: String, opts: Options, i: nat, st: State, stop: nat): (r: Result<Moved, RangeError>)
    requires i <= |xml| && stop <= |xml|
    ensures r.Ok? ==> r.value.next <= |xml| && (i >= stop ==> r.value == Moved(st, i))
    decreases |xml| - i
  {
    if i >= stop then Ok(Moved(st, i))
    else
      match Step(xml, i, opts, st)
      case Err(e) => Err(e)
      case Ok(m) => Steps(xml, opts, m.next, m.state, stop)
  }

  function Format(xml: String, opts: Options, minify: String -> String): Result<String, RangeError> {
    Run(Prepared(xml, minify), opts, 0, Initial(opts))
  }

  /** `formatXml`; the regular-expression minification is the parameter `minify`. */
  method FormatXml(xml0: String, opts: Options, minify: String -> String) returns (r: Result<String, RangeError>)
    ensures r == Format(xml0, opts, minify)
  {
    var xml := SanitizeComments(xml0);
    xml := minify(xml);
    xml := Unsanitized(xml);
    var st := Initial(opts);
    var i := 0;
    while i < |xml|
      invariant i <= |xml|
      invariant Run(xml, opts, i, st) == Format(xml0, opts, minify)
      decreases |xml| - i
    {
      var m := Step(xml, i, opts, st);
      if m.Err? {
        return Err(m.error);
      }
      st, i := m.value.state, m.value.next;
    }
    return Ok(st.output);
  }

  // ---------------------------------------------------------------------
  // The output is the input with white space added and removed

  /** `m`'s output, with white space deleted, extends `st`'s by `consumed`. */
  predicate Adds(st: State, m: Moved, consumed: String) {
    Squeeze(m.state.output) == Squeeze(st.output) + Squeeze(consumed)
  }

  /** Every turn adds what it consumed, padded with white space and after dropping blanks. */
  lemma StepSqueeze(xml: String, i: nat, opts: Options, st: State)
    requires i < |xml| && AllWhite(opts.newLine)
    requires Step(xml, i, opts, st).Ok?
    ensures var m := Step(xml, i, opts, st).value; Adds(st, m, xml[i..m.next])
  {
    var r := Step(xml, i, opts, st);
    var m := r.value;
    match Top(st)
    case Some(Text) =>
      TextSqueeze(xml, i, opts, st);
      assert xml[i..m.next] == [xml[i]];
    case Some(StartTagName) =>
      StartTagSqueeze(xml, i, opts, st);
      assert xml[i..m.next] == [xml[i]];
    case Some(StartTag) =>
      StartTagSqueeze(xml, i, opts, st);
      assert xml[i..m.next] == [xml[i]];
    case _ =>
      CopiedSqueeze(xml, i, st, m);
  }

  lemma CopiedSqueeze(xml: String, i: nat, st: State, m: Moved)
    requires CopiedFrom(xml, i, st, m)
    ensures Adds(st, m, xml[i..m.next])
  {
    SqueezeAppend(st.output, xml[i..m.next]);
  }

  lemma IndentSqueeze(out: String, pre: String, opts: Options, level: int, c: String)
    requires AllWhite(pre) && Indent(opts, level).Ok?
    ensures Squeeze(out + pre + Indent(opts, level).value + c) == Squeeze(out) + Squeeze(c)
  {
    SqueezePadded(out, pre, Indent(opts, level).value, c);
  }

  lemma TextSqueeze(xml: String, i: nat, opts: Options, st: State)
    requires i < |xml| && AllWhite(opts.newLine)
    requires InText(xml, i, opts, st).Ok?
    ensures Adds(st, InText(xml, i, opts, st).value, [xml[i]])
  {
    var cc := xml[i];
    var nc, nnc, pc, ppc := At(xml, i + 1), At(xml, i + 2), At(xml, i - 1), At(xml, i - 2);
    var out := st.output;
    var lt := "<";
    if cc == '<' && nc == Some('!') && (nnc == Some('[') || nnc == Some('-')) {
      assert [cc] == lt;
      if nnc == Some('[') && pc == Some('>') && ppc != Some('/') {
        SqueezeAppend(out, lt);
      } else {
        IndentSqueeze(out, "", opts, st.indentLevel, lt);
      }
    } else if cc == '<' && (nc == Some('!') || nc == Some('?')) {
      assert [cc] == lt;
      IndentSqueeze(out, "", opts, st.indentLevel, lt);
    } else if cc == '<' && nc != Some('/') && nc != Some('!') {
      OpeningTagSqueeze(xml, i, opts, st);
    } else if cc == '<' && nc == Some('/') {
      EndTagSqueeze(xml, i, opts, st);
    } else {
      SqueezeAppend(out, [cc]);
    }
  }

  lemma OpeningTagSqueeze(xml: String, i: nat, opts: Options, st: State)
    requires i < |xml| && xml[i] == '<' && AllWhite(opts.newLine)
    requires OpeningTag(xml, i, opts, st).Ok?
    ensures Adds(st, OpeningTag(xml, i, opts, st).value, [xml[i]])
  {
    var s := RefreshMixedContentFlag(st);
    assert [xml[i]] == "<";
    OpeningTagIndentSqueeze(s, opts, At(xml, i - 1), At(xml, i - 2));
  }

  lemma OpeningTagIndentSqueeze(s: State, opts: Options, pc: Option<char>, ppc: Option<char>)
    requires AllWhite(opts.newLine) && OpeningTagIndent(s, opts, pc, ppc).Ok?
    ensures Squeeze(OpeningTagIndent(s, opts, pc, ppc).value.output) == Squeeze(s.output) + Squeeze("<")
  {
    var out := s.output;
    if pc == Some('>') && ppc != Some('/') && !s.inMixedContent {
      IndentSqueeze(out, opts.newLine, opts, s.indentLevel, "<");
    } else if !s.inMixedContent {
      TrimTrailingBlankSqueeze(out);
      IndentSqueeze(TrimTrailingBlank(out), "", opts, s.indentLevel, "<");
    } else {
      SqueezeAppend(out, "<");
    }
  }

  lemma EndTagSqueeze(xml: String, i: nat, opts: Options, st: State)
    requires i < |xml| && xml[i] == '<' && AllWhite(opts.newLine)
    requires EndTagStart(xml, i, opts, st).Ok?
    ensures Adds(st, EndTagStart(xml, i, opts, st).value, [xml[i]])
  {
    var s := RefreshMixedContentFlag(st.(indentLevel := st.indentLevel - 1));
    assert [xml[i]] == "<";
    EndTagIndentSqueeze(s, opts, At(xml, i - 1), At(xml, i - 2));
  }

  lemma EndTagIndentSqueeze(s: State, opts: Options, pc: Option<char>, ppc: Option<char>)
    requires AllWhite(opts.newLine) && EndTagIndent(s, opts, pc, ppc).Ok?
    ensures Squeeze(EndTagIndent(s, opts, pc, ppc).value.output) == Squeeze(s.output) + Squeeze("<")
  {
    var out := s.output;
    if (pc == Some('\n') || s.lineBreakSpree) && !s.inMixedContent {
      TrimTrailingBlankSqueeze(out);
      IndentSqueeze(TrimTrailingBlank(out), "", opts, s.indentLevel, "<");
    } else if LastNonText(s.history) == Some(EndTag) && !s.inMixedContent {
      IndentSqueeze(out, opts.newLine, opts, s.indentLevel, "<");
    } else if pc == Some('>') && ppc == Some('/') && !s.inMixedContent {
      IndentSqueeze(out, "", opts, s.indentLevel, "<");
    } else {
      SqueezeAppend(out, "<");
    }
  }

  /** Output built from text equal to the old output up to white space, white space and `c`. */
  lemma PaddedAdds(st: State, m: Moved, base: String, pre: String, opts: Options, level: int, c: String)
    requires Squeeze(base) == Squeeze(st.output) && AllWhite(pre) && Indent(opts, level).Ok?
    requires m.state.output == base + pre + Indent(opts, level).value + c
    ensures Adds(st, m, c)
  {
    SqueezePadded(base, pre, Indent(opts, level).value, c);
  }

  lemma StartTagSqueeze(xml: String, i: nat, opts: Options, st: State)
    requires i < |xml| && AllWhite(opts.newLine)
    requires InStartTag(xml, i, opts, st).Ok?
    ensures Adds(st, InStartTag(xml, i, opts, st).value, [xml[i]])
  {
    var cc := xml[i];
    var out := st.output;
    var m := InStartTag(xml, i, opts, st).value;
    if IsLocation(st, StartTagName) && cc == ' ' {
      assert m.state.output == out + [cc];
      SqueezeAppend(out, [cc]);
    } else if IsLocation(st, StartTag) && cc != ' ' && cc != '/' && cc != '>' {
      AttributeNameSqueeze(xml, i, opts, st);
    } else if cc == '/' && At(xml, i - 1) != Some(' ') && opts.enforcePrettySelfClosingTagOnFormat {
      assert m.state.output == out + " /" == out + " " + [cc];
      SpaceThenSqueeze(out, [cc]);
    } else if cc == '>' {
      CloseStartTagSqueeze(xml, i, opts, st);
    } else {
      assert m == Other(xml, i, st);
      SqueezeAppend(out, [cc]);
    }
  }

  lemma AttributeNameSqueeze(xml: String, i: nat, opts: Options, st: State)
    requires i < |xml| && AllWhite(opts.newLine)
    requires AttributeName(xml, i, opts, st).Ok?
    ensures Adds(st, AttributeName(xml, i, opts, st).value, [xml[i]])
  {
    SqueezeAppend(st.output, [xml[i]]);
    if Indent(opts, st.indentLevel).Ok? {
      IndentSqueeze(st.output, opts.newLine, opts, st.indentLevel, [xml[i]]);
    }
  }

  lemma CloseStartTagSqueeze(xml: String, i: nat, opts: Options, st: State)
    requires i < |xml| && xml[i] == '>' && AllWhite(opts.newLine)
    ensures Adds(st, CloseStartTag(xml, i, opts, st), [xml[i]])
  {
    var tail :=
      if At(xml, i - 1) == Some('/') && At(xml, i + 1) != Some('\r') && At(xml, i + 1) != Some('\n')
      then opts.newLine else "";
    assert [xml[i]] == ">";
    assert AllWhite(tail) by {
      assert AllWhite("");
    }
    SqueezeWhiteTail(st.output, ">", tail);
  }

  lemma {:induction false} RunSqueeze(xml: String, opts: Options, i: nat, st: State)
    requires i <= |xml| && AllWhite(opts.newLine) && Run(xml, opts, i, st).Ok?
    ensures Squeeze(Run(xml, opts, i, st).value) == Squeeze(st.output) + Squeeze(xml[i..])
    decreases |xml| - i
  {
    if i < |xml| {
      RunStep(xml, opts, i, st);
      var m := Step(xml, i, opts, st).value;
      StepSqueeze(xml, i, opts, st);
      RunSqueeze(xml, opts, m.next, m.state);
      SqueezeSplit(xml, i, m.next);
      SeqAssoc(Squeeze(st.output), Squeeze(xml[i..m.next]), Squeeze(xml[m.next..]));
    }
  }

  /** One turn of the loop, when there is a character left. */
  lemma RunStep(xml: String, opts: Options, i: nat, st: State)
    requires i < |xml|
    ensures Step(xml, i, opts, st).Err? ==> Run(xml, opts, i, st) == Err(Step(xml, i, opts, st).error)
    ensures Step(xml, i, opts, st).Ok? ==>
      var m := Step(xml, i, opts, st).value; Run(xml, opts, i, st) == Run(xml, opts, m.next, m.state)
  {
  }

  /**
   * With a white-space `newLine`, the formatted text and the text the loop
   * read differ only in white space.
   */
  lemma FormatOnlyMovesWhiteSpace(xml: String, opts: Options, minify: String -> String)
    requires AllWhite(opts.newLine) && Format(xml, opts, minify).Ok?
    ensures Squeeze(Format(xml, opts, minify).value) == Squeeze(Prepared(xml, minify))
  {
    RunSqueeze(Prepared(xml, minify), opts, 0, Initial(opts));
  }

  /**
   * When minification leaves the text alone, and the text has no `~` and no
   * `<!-` that does not begin `<!--`, formatting changes nothing but white space.
   */
  lemma FormatKeepsText(xml: String, opts: Options, minify: String -> String)
    requires AllWhite(opts.newLine) && Format(xml, opts, minify).Ok?
    requires NoTilde(xml) && OpenersComplete(xml)
    requires forall t :: minify(t) == t
    ensures Squeeze(Format(xml, opts, minify).value) == Squeeze(xml)
  {
    FormatOnlyMovesWhiteSpace(xml, opts, minify);
    SanitizeRoundTrip(xml, false);
  }

  // ---------------------------------------------------------------------
  // Indentation

  /** An opening tag indents by one level, except in mixed content. */
  lemma OpeningTagIndents(xml: String, i: nat, opts: Options, st: State)
    requires i < |xml| && IsLocation(st, Text) && xml[i] == '<'
    requires At(xml, i + 1) != Some('/') && At(xml, i + 1) != Some('!') && At(xml, i + 1) != Some('?')
    requires Step(xml, i, opts, st).Ok?
    ensures var m := Step(xml, i, opts, st).value;
      m.next == i + 1 && IsLocation(m.state, StartTagName)
      && m.state.indentLevel == st.indentLevel + (if Mixed(st) then 0 else 1)
      && m.state.inMixedContent == Mixed(st)
  {
  }

  /** An end tag takes one level back, before its own indentation is written. */
  lemma EndTagDedents(xml: String, i: nat, opts: Options, st: State)
    requires i < |xml| && IsLocation(st, Text) && xml[i] == '<' && At(xml, i + 1) == Some('/')
    requires Step(xml, i, opts, st).Ok?
    ensures var m := Step(xml, i, opts, st).value;
      m.next == i + 1 && IsLocation(m.state, EndTag) && m.state.indentLevel == st.indentLevel - 1
  {
  }

  /** The `>` of `/>` takes one level back; any other `>` of a start tag keeps it. */
  lemma StartTagCloseIndent(xml: String, i: nat, opts: Options, st: State)
    requires i < |xml| && (IsLocation(st, StartTag) || IsLocation(st, StartTagName)) && xml[i] == '>'
    ensures Step(xml, i, opts, st).Ok?
    ensures var m := Step(xml, i, opts, st).value;
      m.next == i + 1 && IsLocation(m.state, Text)
      && m.state.indentLevel == st.indentLevel - (if At(xml, i - 1) == Some('/') then 1 else 0)
  {
  }

  /** The level changes only at the three places above. */
  lemma IndentChangesOnlyAtTags(xml: String, i: nat, opts: Options, st: State)
    requires i < |xml| && Step(xml, i, opts, st).Ok?
    requires Step(xml, i, opts, st).value.state.indentLevel != st.indentLevel
    ensures (IsLocation(st, Text) && xml[i] == '<' && At(xml, i + 1) != Some('!') && At(xml, i + 1) != Some('?'))
      || ((IsLocation(st, StartTag) || IsLocation(st, StartTagName)) && xml[i] == '>' && At(xml, i - 1) == Some('/'))
  {
    if IsLocation(st, StartTag) || IsLocation(st, StartTagName) {
      if xml[i] == '>' {
        assert IsLocation(st, StartTagName) ==> !IsLocation(st, Text);
      }
    }
  }

  /**
   * An end tag that follows another end tag is indented on a new line; at
   * level zero or below the indentation count is negative and `repeat`
   * raises (as for the second end tag of `</a></b>`).
   */
  lemma EndTagAfterEndTagRaises(xml: String, i: nat, opts: Options, st: State)
    requires i < |xml| && IsLocation(st, Text) && xml[i] == '<' && At(xml, i + 1) == Some('/')
    requires At(xml, i - 1) != Some('\n') && !st.lineBreakSpree && st.lastWordCharacter.None?
    requires LastNonText(st.history) == Some(EndTag) && st.indentLevel <= 0
    ensures Step(xml, i, opts, st) == Err(InvalidCountValue(st.indentLevel - 1))
  {
    var s := RefreshMixedContentFlag(st.(indentLevel := st.indentLevel - 1));
    assert !s.inMixedContent && LastNonText(s.history) == Some(EndTag) && !s.lineBreakSpree;
    assert Step(xml, i, opts, st) == InText(xml, i, opts, st) == EndTagStart(xml, i, opts, st);
    assert EndTagIndent(s, opts, At(xml, i - 1), At(xml, i - 2)) == AddIndent(s, opts, opts.newLine, "<");
  }

  // ---------------------------------------------------------------------
  // Attribute values

  /** In `AttributeValue` the quote that opened it is remembered. */
  predicate QuoteKept(st: State) {
    IsLocation(st, AttributeValue) ==> st.attributeQuote == Some('"') || st.attributeQuote == Some('\'')
  }

  lemma StepKeepsQuote(xml: String, i: nat, opts: Options, st: State)
    requires i < |xml| && QuoteKept(st) && Step(xml, i, opts, st).Ok?
    ensures QuoteKept(Step(xml, i, opts, st).value.state)
  {
    match Top(st)
    case Some(StartTagName) =>
      assert !IsLocation(st, AttributeValue);
    case Some(StartTag) =>
      assert !IsLocation(st, AttributeValue);
    case _ =>
  }

  /** An attribute value is copied, and it is left exactly on the quote that opened it. */
  lemma AttributeValueEndsOnItsQuote(xml: String, i: nat, opts: Options, st: State)
    requires i < |xml| && IsLocation(st, AttributeValue)
    ensures Step(xml, i, opts, st).Ok?
    ensures var m := Step(xml, i, opts, st).value;
      m.state.output == st.output + [xml[i]]
      && (IsLocation(m.state, AttributeValue) <==> st.attributeQuote != Some(xml[i]))
      && (!IsLocation(m.state, AttributeValue) ==> IsLocation(m.state, StartTag) && m.state.attributeQuote == None)
  {
  }

  // ---------------------------------------------------------------------
  // CDATA sections and comments

  /** The location and the terminator of a verbatim section. */
  predicate Verbatim(loc: Location, close: String) {
    (loc == CData && close == "]]>") || (loc == Comment && close == "-->")
  }

  /** Inside CDATA or a comment every character up to the terminator is copied. */
  lemma {:induction false} VerbatimBody(xml: String, opts: Options, i: nat, st: State, j: nat, loc: Location, close: String)
    requires Verbatim(loc, close) && IsLocation(st, loc) && i <= j <= |xml|
    requires forall k :: i <= k < j ==> !OccursAt(xml, close, k)
    ensures Steps(xml, opts, i, st, j).Ok?
    ensures var m := Steps(xml, opts, i, st, j).value;
      m.next == j && m.state.output == st.output + xml[i..j] && IsLocation(m.state, loc)
    decreases j - i
  {
    if i < j {
      var m := Other(xml, i, st);
      assert !OccursAt(xml, close, i);
      VerbatimStep(xml, opts, i, st, loc, close);
      StepsStep(xml, opts, i, st, j);
      VerbatimBody(xml, opts, i + 1, m.state, j, loc, close);
      CopyOneMore(st.output, xml, i, j);
    }
  }

  /** Inside CDATA or a comment, a character that does not start the terminator is copied. */
  lemma VerbatimStep(xml: String, opts: Options, i: nat, st: State, loc: Location, close: String)
    requires Verbatim(loc, close) && IsLocation(st, loc) && i < |xml| && !OccursAt(xml, close, i)
    ensures Step(xml, i, opts, st) == Ok(Other(xml, i, st))
  {
    if loc == CData {
      assert Step(xml, i, opts, st) == InCData(xml, i, st);
    } else {
      assert Step(xml, i, opts, st) == InComment(xml, i, st);
    }
  }

  /** One turn of the bounded loop, before it reaches `stop`. */
  lemma StepsStep(xml: String, opts: Options, i: nat, st: State, stop: nat)
    requires i < stop <= |xml|
    ensures Step(xml, i, opts, st).Err? ==> Steps(xml, opts, i, st, stop) == Err(Step(xml, i, opts, st).error)
    ensures Step(xml, i, opts, st).Ok? ==>
      var m := Step(xml, i, opts, st).value; Steps(xml, opts, i, st, stop) == Steps(xml, opts, m.next, m.state, stop)
  {
  }

  /** The terminator is copied whole and returns to `Text`, forgetting the last word character. */
  lemma VerbatimEnd(xml: String, opts: Options, i: nat, st: State, loc: Location, close: String)
    requires Verbatim(loc, close) && IsLocation(st, loc) && OccursAt(xml, close, i)
    ensures Step(xml, i, opts, st).Ok?
    ensures var m := Step(xml, i, opts, st).value;
      m.next == i + 3 && m.state.output == st.output + close
      && IsLocation(m.state, Text) && m.state.lastWordCharacter == None
  {
    assert xml[i..i + 3][0] == xml[i] && xml[i..i + 3][1] == xml[i + 1] && xml[i..i + 3][2] == xml[i + 2];
  }

  // ---------------------------------------------------------------------
  // The location history

  /** `isLastNonTextLocation` skips `Text` entries and sees any other entry. */
  lemma LastNonTextPush(h: seq<Location>, loc: Location)
    ensures LastNonText(h + [loc]) == if loc == Text then LastNonText(h) else Some(loc)
  {
    assert (h + [loc])[..|h|] == h;
  }

  /** Whenever a turn returns to `Text`, the last word character is forgotten. */
  lemma EnteringTextForgetsWord(xml: String, i: nat, opts: Options, st: State)
    requires i < |xml| && !IsLocation(st, Text) && Step(xml, i, opts, st).Ok?
    requires IsLocation(Step(xml, i, opts, st).value.state, Text)
    ensures Step(xml, i, opts, st).value.state.lastWordCharacter == None
  {
    assert ForgetsWordOnText(st, Step(xml, i, opts, st).value);
  }
}
