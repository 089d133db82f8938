/**
 * The JSON completion and hover providers of the C# extension 1.16.2
 * (`jsonContributions.js`): the word before the cursor, the range a completion
 * overwrites, the collector that keeps the first suggestion per label, and the
 * hover check. Positions are document offsets; the JSON location and the
 * contribution's suggestions come from the host and are inputs.
 */
module JsonContributions {
  import opened Wrappers
  import opened JsString
  import opened JsValue

  // ---------------------------------------------------------------------------
  // `getCurrentWord`.

  /** The characters ` \t\n\r\v":{[,` that end a word. */
  predicate IsWordBreak(c: char) {
    c == ' ' || c == '\t' || c == '\n' || c == '\r' || c == '\U{000B}' || c == '"' || c == ':' || c == '{' || c == '[' || c == ','
  }

  /**
   * The loop test at `i`: `text.charAt(i)` is the empty string past the end of
   * the text, and its `indexOf` in the break list is then 0, which stops the loop.
   */
  predicate Continues(text: String, i: int) {
    i >= 0 && i < |text| && !IsWordBreak(text[i])
  }

  /**
   * `getCurrentWord` on the cursor's line: the longest run of non-break
   * characters that ends at the cursor; nothing when the cursor is past the end
   * of the line or at its start.
   */
  method GetCurrentWord(text: String, character: int) returns (word: String)
    ensures (character <= 0 || character > |text|) ==> word == []
    ensures 0 < character <= |text| ==>
      (exists start :: 0 <= start <= character && word == text[start..character]
         && (forall k :: start <= k < character ==> !IsWordBreak(text[k]))
         && (start == 0 || IsWordBreak(text[start - 1])))
  {
    var i := character - 1;
    while i >= 0 && Continues(text, i)
      invariant i <= character - 1
      invariant character > 0 ==> -1 <= i
      invariant character <= 0 ==> i == character - 1
      invariant 0 < character <= |text| ==> forall k :: i < k < character ==> !IsWordBreak(text[k])
      invariant character > |text| ==> i == character - 1
    {
      i := i - 1;
    }
    word := Substring(text, i + 1, character);
    if 0 < character <= |text| {
      assert word == text[i + 1..character];
      assert i + 1 == 0 || IsWordBreak(text[i]);
    }
  }

  // ---------------------------------------------------------------------------
  // The overwrite range and the hover check.

  /** The node before the cursor, as the JSON parser reports it. */
  datatype JsonNode = JsonNode(offset: int, length: int, nodeType: String)

  /** A range of document offsets. */
  datatype OffsetRange = OffsetRange(start: int, end: int)

  predicate Covers(node: JsonNode, offset: int) {
    node.offset <= offset <= node.offset + node.length
  }

  predicate IsValueOrProperty(node: JsonNode) {
    node.nodeType in {"property", "string", "number", "boolean", "null"}
  }

  /** The range a completion replaces: the covering property or literal node, else the current word up to the cursor. */
  function OverwriteRange(node: Option<JsonNode>, offset: int, currentWord: String): (r: OffsetRange)
    ensures node.Some? && Covers(node.value, offset) && IsValueOrProperty(node.value) ==>
      r == OffsetRange(node.value.offset, node.value.offset + node.value.length)
    ensures !(node.Some? && Covers(node.value, offset) && IsValueOrProperty(node.value)) ==>
      r.end == offset && r.end - r.start == |currentWord|
  {
    if node.Some? && Covers(node.value, offset) && IsValueOrProperty(node.value) then
      OffsetRange(node.value.offset, node.value.offset + node.value.length)
    else OffsetRange(offset - |currentWord|, offset)
  }

  /** `provideHover`: the node's range when a node covers the offset and the contribution has information. */
  function HoverRange(node: Option<JsonNode>, offset: int, hasInfo: bool): (r: Option<OffsetRange>)
    ensures r.Some? <==> node.Some? && Covers(node.value, offset) && hasInfo
    ensures r.Some? ==>
      r.value.start == node.value.offset && r.value.end - r.value.start == node.value.length
      && r.value.start <= offset <= r.value.end
  {
    if node.Some? && Covers(node.value, offset) && hasInfo then
      Some(OffsetRange(node.value.offset, node.value.offset + node.value.length))
    else None
  }

  // ---------------------------------------------------------------------------
  // The completion collector.

  datatype Suggestion = Suggestion(labelText: String, insertText: String)

  /** A collected completion: the suggestion with a replace edit over the overwrite range. */
  datatype CompletionItem = CompletionItem(labelText: String, insertText: String, editRange: OffsetRange, newText: String)

  function WithEdit(s: Suggestion, range: OffsetRange): CompletionItem {
    CompletionItem(s.labelText, s.insertText, range, s.insertText)
  }

  function Labels(ss: seq<Suggestion>): (r: set<String>)
    ensures forall l :: l in r <==> exists i :: 0 <= i < |ss| && ss[i].labelText == l
  {
    if ss == [] then {}
    else
      assert forall i :: 0 <= i < |ss| - 1 ==> ss[..|ss| - 1][i] == ss[i];
      Labels(ss[..|ss| - 1]) + {ss[|ss| - 1].labelText}
  }

  /**
   * The suggestions `add` keeps, as written: `proposed[label]` is looked up on
   * a plain object, so a label that names an `Object.prototype` property is
   * found truthy and dropped as though already proposed.
   */
  function KeptAsWritten(ss: seq<Suggestion>): seq<Suggestion> {
    if ss == [] then []
    else
      var kept := KeptAsWritten(ss[..|ss| - 1]);
      var s := ss[|ss| - 1];
      if LookupTruthy(Labels(kept), s.labelText) then kept else kept + [s]
  }

  /** The suggestions `add` evidently means to keep: the first one of each label. */
  function Kept(ss: seq<Suggestion>): seq<Suggestion> {
    if ss == [] then []
    else
      var kept := Kept(ss[..|ss| - 1]);
      var s := ss[|ss| - 1];
      if s.labelText in Labels(kept) then kept else kept + [s]
  }

  /** The collector over the suggestions a contribution adds, in order. */
  method CollectSuggestions(ss: seq<Suggestion>, range: OffsetRange) returns (items: seq<CompletionItem>)
    ensures |items| == |KeptAsWritten(ss)|
    ensures forall i :: 0 <= i < |items| ==> items[i] == WithEdit(KeptAsWritten(ss)[i], range)
  {
    var proposed: set<String> := {};
    items := [];
    for j := 0 to |ss|
      invariant proposed == Labels(KeptAsWritten(ss[..j]))
      invariant |items| == |KeptAsWritten(ss[..j])|
      invariant forall i :: 0 <= i < |items| ==> items[i] == WithEdit(KeptAsWritten(ss[..j])[i], range)
    {
      assert ss[..j + 1][..j] == ss[..j];
      var suggestion := ss[j];
      if !(suggestion.labelText in proposed || suggestion.labelText in ObjectPrototypeNames) {
        proposed := proposed + {suggestion.labelText};
        items := items + [WithEdit(suggestion, range)];
      }
    }
    assert ss[..|ss|] == ss;
  }

  /** Every label of the input is kept, and no other. */
  lemma {:induction false} KeptLabels(ss: seq<Suggestion>)
    ensures Labels(Kept(ss)) == Labels(ss)
  {
    if ss != [] {
      var init, s := ss[..|ss| - 1], ss[|ss| - 1];
      KeptLabels(init);
      assert Labels(ss) == Labels(init) + {s.labelText};
      if s.labelText !in Labels(Kept(init)) {
        LabelsSnoc(Kept(init), s);
      }
    }
  }

  lemma LabelsSnoc(ss: seq<Suggestion>, s: Suggestion)
    ensures Labels(ss + [s]) == Labels(ss) + {s.labelText}
  {
    assert (ss + [s])[..|ss|] == ss;
  }

  /** The kept suggestions come from the input and have distinct labels. */
  lemma {:induction false} KeptDistinct(ss: seq<Suggestion>)
    ensures forall a, b :: 0 <= a < b < |Kept(ss)| ==> Kept(ss)[a].labelText != Kept(ss)[b].labelText
    ensures forall k :: 0 <= k < |Kept(ss)| ==> Kept(ss)[k] in ss
  {
    if ss != [] {
      var init := ss[..|ss| - 1];
      KeptDistinct(init);
      assert forall x :: x in init ==> x in ss;
    }
  }

  /** The first suggestion of each label is the kept one. */
  lemma {:induction false} KeptIsFirst(ss: seq<Suggestion>, i: nat)
    requires i < |ss| && forall k :: 0 <= k < i ==> ss[k].labelText != ss[i].labelText
    ensures ss[i] in Kept(ss)
    decreases |ss|
  {
    var init := ss[..|ss| - 1];
    if i < |ss| - 1 {
      assert init[i] == ss[i];
      KeptIsFirst(init, i);
    } else {
      KeptLabels(init);
      assert forall k :: 0 <= k < |init| ==> init[k] == ss[k];
    }
  }

  /** For labels that are not `Object.prototype` names the written collector keeps the same suggestions. */
  lemma {:induction false} KeptAsWrittenAgrees(ss: seq<Suggestion>)
    requires forall k :: 0 <= k < |ss| ==> ss[k].labelText !in ObjectPrototypeNames
    ensures KeptAsWritten(ss) == Kept(ss)
  {
    if ss != [] {
      KeptAsWrittenAgrees(ss[..|ss| - 1]);
    }
  }

  /** A suggestion labelled `constructor` is never collected. */
  lemma PrototypeLabelDropped(insertText: String)
    ensures KeptAsWritten([Suggestion("constructor", insertText)]) == []
    ensures Kept([Suggestion("constructor", insertText)]) == [Suggestion("constructor", insertText)]
  {
    var ss := [Suggestion("constructor", insertText)];
    assert ss[..0] == [];
  }

  /** `provideCompletionItems`' result: no list when nothing was collected. */
  datatype CompletionList = CompletionList(items: seq<CompletionItem>, isIncomplete: bool)

  function CompletionResult(collected: bool, items: seq<CompletionItem>, isIncomplete: bool): (r: Option<CompletionList>)
    ensures r.Some? <==> collected && |items| > 0
    ensures r.Some? ==> r.value.items == items && r.value.isIncomplete == isIncomplete
  {
    if collected && |items| > 0 then Some(CompletionList(items, isIncomplete)) else None
  }
}
