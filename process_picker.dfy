/**
 * The process pickers of the C# extension (`processPicker.js`, 1.16.2; 1.15.2
 * differs only in having no `pipeCwd`): the pipe-transport options of a
 * launch configuration, the pipe command built from them, the parsers of
 * `ps` and `wmic` output, and the order in which processes are offered.
 *
 * Running the commands, the file-system check of `ValidateAndFixPipeProgram`
 * and the quick-pick UI are not modelled; `os.EOL` and `os.platform()` are
 * parameters.
 */
module ProcessPicker {
  import opened Wrappers
  import opened JsString
  import opened JsValue

  // ---------------------------------------------------------------------
  // Pipe-transport options

  /** The four settings of a pipe transport, or of its `osx`/`linux`/`windows` section. */
  datatype TransportOptions = TransportOptions(pipeProgram: Value, pipeArgs: Value, pipeCwd: Value, quoteArgs: Value)

  /** A `pipeTransport` object: its own settings and its platform sections, when present. */
  datatype PipeTransport = PipeTransport(
    base: TransportOptions,
    osx: Option<TransportOptions>,
    linux: Option<TransportOptions>,
    windows: Option<TransportOptions>)

  /** The 1.15.2 result, which has no `pipeCwd`. */
  datatype LegacyTransportOptions = LegacyTransportOptions(pipeProgram: Value, pipeArgs: Value, quoteArgs: Value)

  /** `x != null`: neither `undefined` nor `null`. */
  predicate NotNullish(v: Value) {
    !v.Undefined? && !v.Null?
  }

  /** `getPlatformSpecificPipeTransportOptions`. */
  function GetPlatformSpecificPipeTransportOptions(config: PipeTransport, osPlatform: String): (r: Option<TransportOptions>)
    ensures osPlatform == "darwin" ==> r == config.osx
    ensures osPlatform == "linux" ==> r == config.linux
    ensures osPlatform == "win32" ==> r == config.windows
    ensures osPlatform !in {"darwin", "linux", "win32"} ==> r == None
  {
    if osPlatform == "darwin" && config.osx.Some? then config.osx
    else if osPlatform == "linux" && config.linux.Some? then config.linux
    else if osPlatform == "win32" && config.windows.Some? then config.windows
    else None
  }

  /**
   * `getPipeTransportOptions`: a platform value replaces the base one only
   * when it is truthy; `quoteArgs` defaults to `true` and a platform value
   * other than `null`/`undefined` replaces it.
   */
  function GetPipeTransportOptions(pipeTransport: PipeTransport, osPlatform: String): (r: TransportOptions)
    ensures var p := GetPlatformSpecificPipeTransportOptions(pipeTransport, osPlatform);
      var b := pipeTransport.base;
      (r.pipeProgram == if p.Some? && Truthy(p.value.pipeProgram) then p.value.pipeProgram else b.pipeProgram)
      && (r.pipeArgs == if p.Some? && Truthy(p.value.pipeArgs) then p.value.pipeArgs else b.pipeArgs)
      && (r.pipeCwd == if p.Some? && Truthy(p.value.pipeCwd) then p.value.pipeCwd else b.pipeCwd)
      && (r.quoteArgs ==
            if p.Some? && NotNullish(p.value.quoteArgs) then p.value.quoteArgs
            else if NotNullish(b.quoteArgs) then b.quoteArgs
            else Bool(true))
  {
    var b := pipeTransport.base;
    var quoteArgs := if NotNullish(b.quoteArgs) then b.quoteArgs else Bool(true);
    match GetPlatformSpecificPipeTransportOptions(pipeTransport, osPlatform)
    case None => TransportOptions(b.pipeProgram, b.pipeArgs, b.pipeCwd, quoteArgs)
    case Some(p) =>
      TransportOptions(
        Or(p.pipeProgram, b.pipeProgram),
        Or(p.pipeArgs, b.pipeArgs),
        Or(p.pipeCwd, b.pipeCwd),
        if NotNullish(p.quoteArgs) then p.quoteArgs else quoteArgs)
  }

  /** `getPipeTransportOptions` of 1.15.2: the same merge without `pipeCwd`. */
  function GetPipeTransportOptionsLegacy(pipeTransport: PipeTransport, osPlatform: String): (r: LegacyTransportOptions)
    ensures var n := GetPipeTransportOptions(pipeTransport, osPlatform);
      r == LegacyTransportOptions(n.pipeProgram, n.pipeArgs, n.quoteArgs)
  {
    var b := pipeTransport.base;
    var quoteArgs := if NotNullish(b.quoteArgs) then b.quoteArgs else Bool(true);
    match GetPlatformSpecificPipeTransportOptions(pipeTransport, osPlatform)
    case None => LegacyTransportOptions(b.pipeProgram, b.pipeArgs, quoteArgs)
    case Some(p) =>
      LegacyTransportOptions(Or(p.pipeProgram, b.pipeProgram), Or(p.pipeArgs, b.pipeArgs),
                             if NotNullish(p.quoteArgs) then p.quoteArgs else quoteArgs)
  }

  /** On a platform without its own section, the base settings are used as they are, with `quoteArgs` defaulted. */
  lemma NoPlatformSectionKeepsBase(pipeTransport: PipeTransport, osPlatform: String)
    requires GetPlatformSpecificPipeTransportOptions(pipeTransport, osPlatform).None?
    ensures var r := GetPipeTransportOptions(pipeTransport, osPlatform);
      r.pipeProgram == pipeTransport.base.pipeProgram && r.pipeArgs == pipeTransport.base.pipeArgs
      && r.pipeCwd == pipeTransport.base.pipeCwd && Truthy(r.quoteArgs) == (!NotNullish(pipeTransport.base.quoteArgs) || Truthy(pipeTransport.base.quoteArgs))
  {
  }

  // ---------------------------------------------------------------------
  // Pipe commands

  const DebuggerCommand: String := "${debuggerCommand}"
  const ScriptShellCmd: String := "sh -s"

  /** `quoteArg`: wrap in double quotes when enabled and the argument holds a space. */
  function QuoteArg(arg: String, quote: bool): (r: String)
    ensures quote && ' ' in arg ==> r == "\"" + arg + "\""
    ensures !(quote && ' ' in arg) ==> r == arg
  {
    if quote && ' ' in arg then "\"" + arg + "\"" else arg
  }

  function QuoteAll(args: seq<String>): (r: seq<String>)
    ensures |r| == |args| && forall k :: 0 <= k < |args| ==> r[k] == QuoteArg(args[k], true)
  {
    if args == [] then [] else [QuoteArg(args[0], true)] + QuoteAll(args[1..])
  }

  /** `createArgumentList`: every argument holding a space quoted, joined by spaces. */
  function CreateArgumentList(args: seq<String>): String {
    Join(QuoteAll(args), " ")
  }

  /** Without spaces in any argument, the argument list is the plain join. */
  lemma {:induction false} ArgumentListWithoutSpaces(args: seq<String>)
    requires forall k :: 0 <= k < |args| ==> ' ' !in args[k]
    ensures CreateArgumentList(args) == Join(args, " ")
  {
    assert QuoteAll(args) == args;
  }

  /** `createPipeCmdFromString` as written: the program is quoted whatever `quoteArgs` says. */
  function CreatePipeCmdFromStringAsWritten(pipeProgram: String, pipeArgs: String, quoteArgs: bool): String {
    var pipeCmd := QuoteArg(pipeProgram, true);
    if Contains(pipeArgs, DebuggerCommand) then pipeCmd + " " + ReplaceAll(pipeArgs, DebuggerCommand, ScriptShellCmd)
    else pipeCmd + " " + (pipeArgs + " " + QuoteArg(ScriptShellCmd, quoteArgs))
  }

  /**
   * `createPipeCmdFromString` as its comment states it ("quote program if
   * quoteArgs is true"), the corrected half of the finding. Every
   * `${debuggerCommand}` becomes `sh -s`; without one, `sh -s` is appended.
   */
  function CreatePipeCmdFromString(pipeProgram: String, pipeArgs: String, quoteArgs: bool): String {
    var pipeCmd := QuoteArg(pipeProgram, quoteArgs);
    if Contains(pipeArgs, DebuggerCommand) then pipeCmd + " " + ReplaceAll(pipeArgs, DebuggerCommand, ScriptShellCmd)
    else pipeCmd + " " + (pipeArgs + " " + QuoteArg(ScriptShellCmd, quoteArgs))
  }

  /** The two versions differ only where the program holds a space and quoting is off. */
  lemma CreatePipeCmdFromStringVersions(pipeProgram: String, pipeArgs: String, quoteArgs: bool)
    ensures (CreatePipeCmdFromStringAsWritten(pipeProgram, pipeArgs, quoteArgs) == CreatePipeCmdFromString(pipeProgram, pipeArgs, quoteArgs))
      <== (quoteArgs || ' ' !in pipeProgram)
  {
  }

  /** Whether some argument holds the placeholder: `pipeArgs.filter(...).length > 0`. */
  predicate AnyHasPlaceholder(args: seq<String>) {
    exists k :: 0 <= k < |args| && Contains(args[k], DebuggerCommand)
  }

  function ReplaceEach(args: seq<String>): (r: seq<String>)
    ensures |r| == |args| && forall k :: 0 <= k < |args| ==> r[k] == ReplaceAll(args[k], DebuggerCommand, ScriptShellCmd)
  {
    if args == [] then [] else [ReplaceAll(args[0], DebuggerCommand, ScriptShellCmd)] + ReplaceEach(args[1..])
  }

  /** The list `createPipeCmdFromArray` joins: the program, then the arguments with the placeholder replaced or `sh -s` appended. */
  function PipeCmdList(pipeProgram: String, pipeArgs: seq<String>): seq<String> {
    if AnyHasPlaceholder(pipeArgs) then [pipeProgram] + ReplaceEach(pipeArgs)
    else [pipeProgram] + pipeArgs + [ScriptShellCmd]
  }

  /** The command `createPipeCmdFromArray` returns. */
  function PipeCmdFromArray(pipeProgram: String, pipeArgs: seq<String>, quoteArgs: bool): String {
    var list := PipeCmdList(pipeProgram, pipeArgs);
    if quoteArgs then CreateArgumentList(list) else Join(list, " ")
  }

  /** The `while (arg.indexOf(...) >= 0) arg = arg.replace(...)` loop of `createPipeCmdFromArray`. */
  method ReplacePlaceholders(arg0: String) returns (arg: String)
    ensures arg == ReplaceAll(arg0, DebuggerCommand, ScriptShellCmd)
    ensures !Contains(arg, DebuggerCommand)
  {
    arg := arg0;
    while Contains(arg, DebuggerCommand)
      invariant ReplaceAll(arg, DebuggerCommand, ScriptShellCmd) == ReplaceAll(arg0, DebuggerCommand, ScriptShellCmd)
      decreases multiset(arg)['$']
    {
      var next := ReplaceFirst(arg, DebuggerCommand, ScriptShellCmd);
      ReplaceFirstThenAll(arg);
      ReplaceFirstDropsDollar(arg);
      arg := next;
    }
    ReplaceAllAbsent(arg, DebuggerCommand, ScriptShellCmd);
  }

  /** The rejections of `createPipeCmd` and `createPipeCmdFromArray`. */
  datatype PipeCmdError =
    | InvalidArgsType       // pipeArgs is neither a string nor an array
    | ArgumentNotAString    // an array item without an `indexOf` method: `filter` throws a TypeError
    | ReplaceOnArray        // an array item holding the placeholder: `arg.replace` is not a function

  predicate AllStrings(items: seq<Value>) {
    forall k :: 0 <= k < |items| ==> items[k].Str?
  }

  function Strings(items: seq<Value>): (r: seq<String>)
    requires AllStrings(items)
    ensures |r| == |items| && forall k :: 0 <= k < |items| ==> r[k] == items[k].s
  {
    if items == [] then [] else [items[0].s] + Strings(items[1..])
  }

  /**
   * An item of a `pipeArgs` array that has an `indexOf` method: a string, or
   * an array, whose `indexOf` and `includes` compare its elements with `===`
   * and whose text, in a template or in `join`, is its `toString`.
   */
  predicate ArgItem(v: Value) {
    v.Str? || v.Arr?
  }

  predicate AllArgItems(items: seq<Value>) {
    forall k :: 0 <= k < |items| ==> ArgItem(items[k])
  }

  /** `arg.indexOf(debuggerCommand) >= 0`: a substring test on a string, an element test on an array. */
  predicate ItemHasPlaceholder(v: Value)
    requires ArgItem(v)
  {
    if v.Str? then Contains(v.s, DebuggerCommand) else Str(DebuggerCommand) in v.items
  }

  predicate AnyItemHasPlaceholder(items: seq<Value>)
    requires AllArgItems(items)
  {
    exists k :: 0 <= k < |items| && ItemHasPlaceholder(items[k])
  }

  /** Some array item holds the placeholder, so the replace loop calls `replace` on an array. */
  predicate SomeArrayHasPlaceholder(items: seq<Value>)
    requires AllArgItems(items)
  {
    exists k :: 0 <= k < |items| && items[k].Arr? && ItemHasPlaceholder(items[k])
  }

  /** One item's text in the command: `quoteArg(arg)` when quoting, then the text `join` gives it. */
  function ItemText(v: Value, quote: bool): (r: String)
    requires ArgItem(v)
    ensures v.Str? ==> r == QuoteArg(v.s, quote)
    ensures v.Arr? && !quote ==> r == Display(v)
  {
    if v.Str? then QuoteArg(v.s, quote)
    else if quote && Str(" ") in v.items then "\"" + Display(v) + "\""
    else Display(v)
  }

  function ItemTexts(items: seq<Value>, quote: bool): (r: seq<String>)
    requires AllArgItems(items)
    ensures |r| == |items| && forall k :: 0 <= k < |items| ==> r[k] == ItemText(items[k], quote)
  {
    if items == [] then [] else [ItemText(items[0], quote)] + ItemTexts(items[1..], quote)
  }

  /** A string item with every placeholder replaced; an array item is pushed as it is. */
  function ReplaceItem(v: Value): (r: Value)
    requires ArgItem(v)
    ensures ArgItem(r)
  {
    if v.Str? then Str(ReplaceAll(v.s, DebuggerCommand, ScriptShellCmd)) else v
  }

  function ReplaceItems(items: seq<Value>): (r: seq<Value>)
    requires AllArgItems(items)
    ensures |r| == |items| && forall k :: 0 <= k < |items| ==> r[k] == ReplaceItem(items[k])
    ensures AllArgItems(r)
  {
    if items == [] then [] else [ReplaceItem(items[0])] + ReplaceItems(items[1..])
  }

  /**
   * The list `createPipeCmdFromArray` joins, for items that are strings or
   * arrays: the program, then the items with the placeholder replaced or
   * `sh -s` appended (`concat` keeps a nested array as one item).
   */
  function PipeItemList(pipeProgram: String, items: seq<Value>): (r: seq<Value>)
    requires AllArgItems(items)
    ensures AllArgItems(r)
  {
    if AnyItemHasPlaceholder(items) then [Str(pipeProgram)] + ReplaceItems(items)
    else [Str(pipeProgram)] + items + [Str(ScriptShellCmd)]
  }

  /**
   * What `createPipeCmdFromArray` returns or throws for any array: the
   * `filter` throws unless every item is a string or an array; the replace
   * loop throws on an array holding the placeholder; otherwise the items'
   * texts are joined by spaces, quoted first when `quoteArgs` holds.
   */
  function PipeCmdFromItems(pipeProgram: String, items: seq<Value>, quoteArgs: bool): Result<String, PipeCmdError> {
    if !AllArgItems(items) then Err(ArgumentNotAString)
    else if SomeArrayHasPlaceholder(items) then Err(ReplaceOnArray)
    else Ok(Join(ItemTexts(PipeItemList(pipeProgram, items), quoteArgs), " "))
  }

  /** On an array of strings the placeholder test on items is the one on strings. */
  lemma ItemPlaceholderOnStrings(items: seq<Value>)
    requires AllStrings(items)
    ensures AllArgItems(items) && !SomeArrayHasPlaceholder(items)
    ensures AnyItemHasPlaceholder(items) == AnyHasPlaceholder(Strings(items))
  {
    var strs := Strings(items);
    if AnyItemHasPlaceholder(items) {
      var k :| 0 <= k < |items| && ItemHasPlaceholder(items[k]);
      assert Contains(strs[k], DebuggerCommand);
    }
    if AnyHasPlaceholder(strs) {
      var k :| 0 <= k < |strs| && Contains(strs[k], DebuggerCommand);
      assert ItemHasPlaceholder(items[k]);
    }
  }

  /** On an array of strings the item list holds the strings of the string list. */
  lemma ItemListOnStrings(pipeProgram: String, items: seq<Value>)
    requires AllStrings(items) && AllArgItems(items)
    requires AnyItemHasPlaceholder(items) == AnyHasPlaceholder(Strings(items))
    ensures var vs := PipeItemList(pipeProgram, items); var ss := PipeCmdList(pipeProgram, Strings(items));
      |vs| == |ss| && forall k :: 0 <= k < |vs| ==> vs[k] == Str(ss[k])
  {
    var strs := Strings(items);
    var vs := PipeItemList(pipeProgram, items);
    var ss := PipeCmdList(pipeProgram, strs);
    if AnyHasPlaceholder(strs) {
      var re := ReplaceEach(strs);
      assert vs == [Str(pipeProgram)] + ReplaceItems(items) && ss == [pipeProgram] + re;
      forall k | 0 <= k < |vs| ensures vs[k] == Str(ss[k]) {
        if k > 0 { assert vs[k] == ReplaceItem(items[k - 1]) && ss[k] == re[k - 1]; }
      }
    } else {
      assert vs == [Str(pipeProgram)] + items + [Str(ScriptShellCmd)];
      assert ss == [pipeProgram] + strs + [ScriptShellCmd];
      forall k | 0 <= k < |vs| ensures vs[k] == Str(ss[k]) {
        if 0 < k <= |items| { assert vs[k] == items[k - 1] && ss[k] == strs[k - 1]; }
      }
    }
  }

  /** The texts of string items are the strings, quoted as `quoteArg` does when quoting. */
  lemma TextsOfStrings(vs: seq<Value>, ss: seq<String>, quote: bool)
    requires |vs| == |ss| && forall k :: 0 <= k < |vs| ==> vs[k] == Str(ss[k])
    ensures AllArgItems(vs)
    ensures ItemTexts(vs, quote) == if quote then QuoteAll(ss) else ss
  {
    var texts := ItemTexts(vs, quote);
    if quote {
      assert texts == QuoteAll(ss);
    } else {
      assert texts == ss;
    }
  }

  /** On an array of strings the general command is the string command. */
  lemma ItemsAgreeOnStrings(pipeProgram: String, items: seq<Value>, quoteArgs: bool)
    requires AllStrings(items)
    ensures PipeCmdFromItems(pipeProgram, items, quoteArgs) == Ok(PipeCmdFromArray(pipeProgram, Strings(items), quoteArgs))
  {
    ItemPlaceholderOnStrings(items);
    ItemListOnStrings(pipeProgram, items);
    TextsOfStrings(PipeItemList(pipeProgram, items), PipeCmdList(pipeProgram, Strings(items)), quoteArgs);
  }

  /** An array holding the placeholder as an element, next to a string, cannot have it replaced. */
  lemma NestedPlaceholderThrows(pipeProgram: String, s: String)
    ensures PipeCmdFromItems(pipeProgram, [Str(s), Arr([Str(DebuggerCommand)])], true) == Err(ReplaceOnArray)
  {
    var items := [Str(s), Arr([Str(DebuggerCommand)])];
    assert items[1].Arr? && ItemHasPlaceholder(items[1]);
  }

  /** A nested array of words joins into the command comma-separated, as `toString` writes it. */
  lemma NestedArrayFlattened(pipeProgram: String, a: String, b: String)
    requires ' ' !in pipeProgram && ' ' !in a && ' ' !in b
    requires !Contains(a, DebuggerCommand) && !Contains(b, DebuggerCommand)
    requires a != DebuggerCommand && b != DebuggerCommand && a != " " && b != " "
    ensures PipeCmdFromItems(pipeProgram, [Arr([Str(a), Str(b)])], true) ==
      Ok(pipeProgram + " " + (a + "," + b + " " + "\"sh -s\""))
  {
    var items := [Arr([Str(a), Str(b)])];
    assert !SomeArrayHasPlaceholder(items);
    assert !AnyItemHasPlaceholder(items);
    var list := [Str(pipeProgram), Arr([Str(a), Str(b)]), Str(ScriptShellCmd)];
    assert PipeItemList(pipeProgram, items) == list;
    var inner := [Str(a), Str(b)];
    assert Display(Arr(inner)) == a + "," + b by {
      assert inner[1..] == [Str(b)];
      assert DisplayItems([Str(b)]) == b;
      assert DisplayItems(inner) == a + "," + DisplayItems([Str(b)]);
    }
    assert ItemText(list[1], true) == a + "," + b;
    assert ' ' in ScriptShellCmd by { assert ScriptShellCmd[2] == ' '; }
    assert ItemText(list[2], true) == "\"sh -s\"";
    var texts := ItemTexts(list, true);
    assert texts == [pipeProgram, a + "," + b, "\"sh -s\""];
    JoinTriple(pipeProgram, a + "," + b, "\"sh -s\"", " ");
  }

  /** The `for (let arg of pipeArgs)` loop: every placeholder of a string replaced, an array holding one a TypeError. */
  method ReplaceArgs(pipeArgs: seq<Value>) returns (r: Result<seq<Value>, PipeCmdError>)
    requires AllArgItems(pipeArgs)
    ensures SomeArrayHasPlaceholder(pipeArgs) ==> r == Err(ReplaceOnArray)
    ensures !SomeArrayHasPlaceholder(pipeArgs) ==> r == Ok(ReplaceItems(pipeArgs))
  {
    ghost var replaced := ReplaceItems(pipeArgs);
    var pushed := [];
    var i := 0;
    while i < |pipeArgs|
      invariant i <= |pipeArgs|
      invariant pushed == replaced[..i]
      invariant forall k :: 0 <= k < i ==> !(pipeArgs[k].Arr? && ItemHasPlaceholder(pipeArgs[k]))
    {
      var arg := pipeArgs[i];
      if arg.Arr? && ItemHasPlaceholder(arg) {
        assert SomeArrayHasPlaceholder(pipeArgs);
        return Err(ReplaceOnArray);
      }
      if arg.Str? {
        var s := ReplacePlaceholders(arg.s);
        arg := Str(s);
      }
      assert arg == replaced[i];
      TakeOneMore(replaced, i);
      pushed := pushed + [arg];
      i := i + 1;
    }
    assert replaced[..i] == replaced;
    return Ok(pushed);
  }

  /**
   * `createPipeCmdFromArray`: the `filter` over the items, then the replace
   * loop or the appended `sh -s`, then the quoting and the join.
   */
  method CreatePipeCmdFromArray(pipeProgram: String, pipeArgs: seq<Value>, quoteArgs: bool) returns (r: Result<String, PipeCmdError>)
    ensures r == PipeCmdFromItems(pipeProgram, pipeArgs, quoteArgs)
    ensures AllStrings(pipeArgs) ==> r == Ok(PipeCmdFromArray(pipeProgram, Strings(pipeArgs), quoteArgs))
  {
    if AllStrings(pipeArgs) {
      ItemsAgreeOnStrings(pipeProgram, pipeArgs, quoteArgs);
    }
    if !AllArgItems(pipeArgs) {
      return Err(ArgumentNotAString);
    }
    var pipeCmdList := [Str(pipeProgram)];
    if AnyItemHasPlaceholder(pipeArgs) {
      var replaced := ReplaceArgs(pipeArgs);
      if replaced.Err? {
        return Err(ReplaceOnArray);
      }
      pipeCmdList := pipeCmdList + replaced.value;
    } else {
      assert !SomeArrayHasPlaceholder(pipeArgs);
      pipeCmdList := pipeCmdList + pipeArgs;
      pipeCmdList := pipeCmdList + [Str(ScriptShellCmd)];
    }
    var texts := ItemTexts(pipeCmdList, quoteArgs);
    r := Ok(Join(texts, " "));
  }

  /**
   * `createPipeCmd` once the program is fixed: a string goes to
   * `createPipeCmdFromString` as written, which quotes the program whatever
   * `quoteArgs` says; an array goes to `createPipeCmdFromArray`; any other
   * arguments are rejected.
   */
  method CreatePipeCmd(fixedPipeProgram: String, pipeArgs: Value, quoteArgs: Value) returns (r: Result<String, PipeCmdError>)
    ensures pipeArgs.Str? ==> r == Ok(CreatePipeCmdFromStringAsWritten(fixedPipeProgram, pipeArgs.s, Truthy(quoteArgs)))
    ensures pipeArgs.Arr? ==> r == PipeCmdFromItems(fixedPipeProgram, pipeArgs.items, Truthy(quoteArgs))
    ensures pipeArgs.Arr? && AllStrings(pipeArgs.items) ==>
      r == Ok(PipeCmdFromArray(fixedPipeProgram, Strings(pipeArgs.items), Truthy(quoteArgs)))
    ensures pipeArgs.Arr? && !AllArgItems(pipeArgs.items) ==> r == Err(ArgumentNotAString)
    ensures !pipeArgs.Str? && !pipeArgs.Arr? ==> r == Err(InvalidArgsType)
  {
    match pipeArgs
    case Str(s) =>
      r := Ok(CreatePipeCmdFromStringAsWritten(fixedPipeProgram, s, Truthy(quoteArgs)));
    case Arr(items) =>
      r := CreatePipeCmdFromArray(fixedPipeProgram, items, Truthy(quoteArgs));
    case _ =>
      r := Err(InvalidArgsType);
  }

  lemma JoinPair(a: String, b: String, sep: String)
    ensures Join([a, b], sep) == a + sep + b
  {
    assert [a, b][1..] == [b];
  }

  lemma JoinTriple(a: String, b: String, c: String, sep: String)
    ensures Join([a, b, c], sep) == a + sep + (b + sep + c)
  {
    assert [a, b, c][1..] == [b, c];
    JoinPair(b, c, sep);
  }

  /**
   * A single argument without spaces gives the same command as a string and
   * as a one-element array, unless it holds the placeholder and quoting is
   * on (the array form then quotes the replaced `sh -s`).
   */
  lemma StringAndArrayAgree(pipeProgram: String, arg: String, quoteArgs: bool)
    requires ' ' !in arg
    ensures !Contains(arg, DebuggerCommand) || !quoteArgs ==>
      CreatePipeCmdFromString(pipeProgram, arg, quoteArgs) == PipeCmdFromArray(pipeProgram, [arg], quoteArgs)
  {
    var q := QuoteArg(pipeProgram, quoteArgs);
    if Contains(arg, DebuggerCommand) {
      assert [arg][0] == arg;
      var list := [pipeProgram, ReplaceAll(arg, DebuggerCommand, ScriptShellCmd)];
      assert PipeCmdList(pipeProgram, [arg]) == list;
      JoinPair(list[0], list[1], " ");
    } else {
      assert !AnyHasPlaceholder([arg]);
      var list := [pipeProgram, arg, ScriptShellCmd];
      assert PipeCmdList(pipeProgram, [arg]) == list;
      var sh := QuoteArg(ScriptShellCmd, quoteArgs);
      if quoteArgs {
        var ql := QuoteAll(list);
        assert ql[0] == q && ql[1] == arg && ql[2] == sh;
        assert ql == [q, arg, sh];
        JoinTriple(q, arg, sh, " ");
      } else {
        JoinTriple(pipeProgram, arg, ScriptShellCmd, " ");
      }
    }
  }

  /**
   * As written, the string and the one-element array forms agree for an
   * argument without spaces when, in addition, the program has no space or
   * quoting is on.
   */
  lemma StringAndArrayAgreeAsWritten(pipeProgram: String, arg: String, quoteArgs: bool)
    requires ' ' !in arg
    ensures (!Contains(arg, DebuggerCommand) || !quoteArgs) && (quoteArgs || ' ' !in pipeProgram) ==>
      CreatePipeCmdFromStringAsWritten(pipeProgram, arg, quoteArgs) == PipeCmdFromArray(pipeProgram, [arg], quoteArgs)
  {
    CreatePipeCmdFromStringVersions(pipeProgram, arg, quoteArgs);
    StringAndArrayAgree(pipeProgram, arg, quoteArgs);
  }

  /** A program path with a space and quoting off: as written the string form quotes it, the array form does not. */
  lemma ProgramQuotedDespiteQuoteArgs()
    ensures CreatePipeCmdFromStringAsWritten("my ssh", "host", false) == "\"my ssh\" host sh -s"
    ensures PipeCmdFromArray("my ssh", ["host"], false) == "my ssh host sh -s"
    ensures CreatePipeCmdFromString("my ssh", "host", false) == "my ssh host sh -s"
  {
    HostHasNoPlaceholder();
    ProgramQuotedAsWritten();
    ProgramPlainInArray();
    ProgramPlainInString();
  }

  lemma HostHasNoPlaceholder()
    ensures !Contains("host", DebuggerCommand) && !AnyHasPlaceholder(["host"])
  {
    ShorterAbsent("host", DebuggerCommand);
    assert ["host"][0] == "host";
  }

  lemma ProgramQuotedAsWritten()
    requires !Contains("host", DebuggerCommand)
    ensures CreatePipeCmdFromStringAsWritten("my ssh", "host", false) == "\"my ssh\" host sh -s"
  {
    assert "my ssh"[2] == ' ';
    assert QuoteArg("my ssh", true) == "\"my ssh\"";
    assert QuoteArg(ScriptShellCmd, false) == "sh -s";
  }

  lemma ProgramPlainInArray()
    requires !AnyHasPlaceholder(["host"])
    ensures PipeCmdFromArray("my ssh", ["host"], false) == "my ssh host sh -s"
  {
    assert PipeCmdList("my ssh", ["host"]) == ["my ssh", "host", "sh -s"];
    JoinTriple("my ssh", "host", "sh -s", " ");
  }

  lemma ProgramPlainInString()
    requires !Contains("host", DebuggerCommand)
    ensures CreatePipeCmdFromString("my ssh", "host", false) == "my ssh host sh -s"
  {
    assert QuoteArg("my ssh", false) == "my ssh";
    assert QuoteArg(ScriptShellCmd, false) == "sh -s";
  }

  // Placeholder replacement: the array form's loop and the string form's global replace agree.

  /** The first character of `sh -s` does not occur in the placeholder. */
  lemma NoShellStartInPlaceholder()
    ensures forall m :: 0 <= m < |DebuggerCommand| ==> DebuggerCommand[m] != ScriptShellCmd[0]
  {
  }

  /** No occurrence of `pat` in `u` starts before `n`. */
  predicate NoneBefore(u: String, pat: String, n: int) {
    forall j :: 0 <= j < n ==> !OccursAt(u, pat, j)
  }

  /** Once an occurrence is replaced, no occurrence starts at or before the replacement's end. */
  lemma ReplacedPrefixInert(s: String)
    requires Contains(s, DebuggerCommand)
    ensures var i := IndexOf(s, DebuggerCommand);
      var p := s[..i] + ScriptShellCmd;
      ReplaceFirst(s, DebuggerCommand, ScriptShellCmd) == p + s[i + |DebuggerCommand|..]
      && NoneBefore(p + s[i + |DebuggerCommand|..], DebuggerCommand, |p|)
  {
    var pat, rep := DebuggerCommand, ScriptShellCmd;
    var i := IndexOf(s, pat);
    var p := s[..i] + rep;
    var t := p + s[i + |pat|..];
    forall j | 0 <= j < |p| ensures !OccursAt(t, pat, j) {
      ReplacedPositionInert(s, i, t, j);
    }
  }

  /** One start position inside the replaced prefix. */
  lemma ReplacedPositionInert(s: String, i: int, t: String, j: int)
    requires 0 <= i && i + |DebuggerCommand| <= |s| && forall j' :: 0 <= j' < i ==> !OccursAt(s, DebuggerCommand, j')
    requires t == s[..i] + ScriptShellCmd + s[i + |DebuggerCommand|..]
    requires 0 <= j < i + |ScriptShellCmd|
    ensures !OccursAt(t, DebuggerCommand, j)
  {
    var pat, rep := DebuggerCommand, ScriptShellCmd;
    if j + |pat| <= |t| {
      var w := t[j..j + |pat|];
      if j + |pat| <= i {
        assert w == s[j..j + |pat|];
        assert !OccursAt(s, pat, j);
      } else if j < i {
        NoShellStartInPlaceholder();
        assert w[i - j] == t[i] == rep[0];
      } else {
        NoDollarInShellCmd();
        assert w[0] == t[j] == rep[j - i];
        assert pat[0] == '$';
      }
    }
  }

  /** Where no occurrence starts inside `p`, the first occurrence in `p + t` is the first one in `t`, shifted. */
  lemma IndexOfAfterInert(p: String, t: String, pat: String)
    requires NoneBefore(p + t, pat, |p|)
    ensures IndexOf(p + t, pat) == if IndexOf(t, pat) < 0 then -1 else |p| + IndexOf(t, pat)
  {
    var u := p + t;
    var k := IndexOf(t, pat);
    if k < 0 {
      forall j | 0 <= j <= |u| ensures !OccursAt(u, pat, j) {
        if j >= |p| {
          ShiftedOccurrence(p, t, pat, j - |p|);
        }
      }
    } else {
      ShiftedOccurrence(p, t, pat, k);
      forall j | 0 <= j < |p| + k ensures !OccursAt(u, pat, j) {
        if j >= |p| {
          ShiftedOccurrence(p, t, pat, j - |p|);
        }
      }
      IndexOfIs(u, pat, |p| + k);
    }
  }

  /** An occurrence in `t` is one in `p + t`, `|p|` further on, and back. */
  lemma ShiftedOccurrence(p: String, t: String, pat: String, j: int)
    requires 0 <= j
    ensures OccursAt(p + t, pat, |p| + j) <==> OccursAt(t, pat, j)
  {
    if |p| + j + |pat| <= |p + t| {
      assert (p + t)[|p| + j..|p| + j + |pat|] == t[j..j + |pat|];
    }
  }

  lemma ReplaceAllUnfold(s: String, pat: String, rep: String)
    requires |pat| > 0 && Contains(s, pat)
    ensures var i := IndexOf(s, pat);
      ReplaceAll(s, pat, rep) == s[..i] + rep + ReplaceAll(s[i + |pat|..], pat, rep)
  {
    var i := IndexOf(s, pat);
    var tail := Split(s[i + |pat|..], pat);
    assert Split(s, pat) == [s[..i]] + tail;
    var ps := [s[..i]] + tail;
    assert ps[1..] == tail;
  }

  /** `ReplaceAll` leaves alone a prefix in which no occurrence starts. */
  lemma ReplaceAllAfterInert(p: String, t: String, pat: String, rep: String)
    requires |pat| > 0 && NoneBefore(p + t, pat, |p|)
    ensures ReplaceAll(p + t, pat, rep) == p + ReplaceAll(t, pat, rep)
  {
    IndexOfAfterInert(p, t, pat);
    if Contains(t, pat) {
      ReplaceAllAfterInertFound(p, t, pat, rep);
    } else {
      ReplaceAllAbsent(t, pat, rep);
      ReplaceAllAbsent(p + t, pat, rep);
    }
  }

  /** `ReplaceAll` at its first occurrence, with the pieces around it named. */
  lemma ReplaceAllAround(s: String, i: int, pat: String, rep: String, pre: String, post: String)
    requires |pat| > 0 && i >= 0 && IndexOf(s, pat) == i
    requires i + |pat| <= |s| && pre == s[..i] && post == s[i + |pat|..]
    ensures ReplaceAll(s, pat, rep) == pre + rep + ReplaceAll(post, pat, rep)
  {
    ReplaceAllUnfold(s, pat, rep);
  }

  lemma ConcatAssoc(a: String, b: String, c: String, d: String)
    ensures (a + b) + c + d == a + (b + c + d)
  {
  }

  lemma ReplaceAllAfterInertFound(p: String, t: String, pat: String, rep: String)
    requires |pat| > 0 && Contains(t, pat) && IndexOf(p + t, pat) == |p| + IndexOf(t, pat)
    ensures ReplaceAll(p + t, pat, rep) == p + ReplaceAll(t, pat, rep)
  {
    var k := IndexOf(t, pat);
    var pre, post := t[..k], t[k + |pat|..];
    assert (p + t)[..|p| + k] == p + pre;
    assert (p + t)[|p| + k + |pat|..] == post;
    ReplaceAllAround(p + t, |p| + k, pat, rep, p + pre, post);
    ReplaceAllAround(t, k, pat, rep, pre, post);
    ConcatAssoc(p, pre, rep, ReplaceAll(post, pat, rep));
  }

  /** One `replace` step does not change what the global replace gives. */
  lemma ReplaceFirstThenAll(s: String)
    requires Contains(s, DebuggerCommand)
    ensures ReplaceAll(ReplaceFirst(s, DebuggerCommand, ScriptShellCmd), DebuggerCommand, ScriptShellCmd)
         == ReplaceAll(s, DebuggerCommand, ScriptShellCmd)
  {
    var i := IndexOf(s, DebuggerCommand);
    ReplacedPrefixInert(s);
    ReplaceAllAfterInert(s[..i] + ScriptShellCmd, s[i + |DebuggerCommand|..], DebuggerCommand, ScriptShellCmd);
    ReplaceAllUnfold(s, DebuggerCommand, ScriptShellCmd);
  }

  /** Replacing an occurrence of `pat` by a `rep` without `c` removes the `c`s of `pat`. */
  lemma ReplaceFirstCount(s: String, pat: String, rep: String, c: char)
    requires Contains(s, pat) && multiset(pat)[c] > 0 && c !in rep
    ensures multiset(ReplaceFirst(s, pat, rep))[c] < multiset(s)[c]
  {
    var i := IndexOf(s, pat);
    var n := |pat|;
    assert s == s[..i] + s[i..i + n] + s[i + n..];
    assert s[i..i + n] == pat;
    assert multiset(rep)[c] == 0;
  }

  lemma DollarInPlaceholder()
    ensures multiset(DebuggerCommand)['$'] > 0
  {
    assert DebuggerCommand[0] == '$';
  }

  lemma NoDollarInShellCmd()
    ensures '$' !in ScriptShellCmd
  {
    forall k | 0 <= k < |ScriptShellCmd| ensures ScriptShellCmd[k] != '$' {
    }
  }

  /** Each `replace` step removes one `$`, so the loop ends. */
  lemma ReplaceFirstDropsDollar(s: String)
    requires Contains(s, DebuggerCommand)
    ensures multiset(ReplaceFirst(s, DebuggerCommand, ScriptShellCmd))['$'] < multiset(s)['$']
  {
    DollarInPlaceholder();
    NoDollarInShellCmd();
    ReplaceFirstCount(s, DebuggerCommand, ScriptShellCmd, '$');
  }

  // ---------------------------------------------------------------------
  // Processes

  /** A `Process`; the WMIC parser starts each record with every field `null` (`None`). */
  datatype Process = Process(name: Option<String>, pid: Option<String>, commandLine: Option<String>)

  datatype AttachItem = AttachItem(labelText: Option<String>, description: Option<String>, detail: Option<String>, id: Option<String>)

  function ToAttachItem(p: Process): (a: AttachItem)
    ensures a == AttachItem(p.name, p.pid, p.commandLine, p.pid)
  {
    AttachItem(p.name, p.pid, p.commandLine, p.pid)
  }

  // ps

  /** `PsOutputParser.secondColumnCharacters`. */
  const SecondColumnCharacters: nat := 50

  /** `commColumnTitle`: `Array(50).join("a")`. */
  function CommColumnTitle(): String {
    Join(seq(SecondColumnCharacters, k => []), "a")
  }

  lemma {:induction false} JoinEmptyParts(n: nat)
    requires n > 0
    ensures Join(seq(n, k => []), "a") == Repeat("a", n - 1)
  {
    var parts: seq<String> := seq(n, k => []);
    if n > 1 {
      var rest: seq<String> := seq(n - 1, k => []);
      assert parts[1..] == rest;
      JoinEmptyParts(n - 1);
    }
  }

  /** The comm column title is 49 `a`s, one less than the column width. */
  lemma CommColumnTitleIs49()
    ensures |CommColumnTitle()| == SecondColumnCharacters - 1 == 49
    ensures forall k :: 0 <= k < |CommColumnTitle()| ==> CommColumnTitle()[k] == 'a'
  {
    JoinEmptyParts(SecondColumnCharacters);
    RepeatChar(49);
  }

  lemma {:induction false} RepeatChar(n: nat)
    ensures forall k :: 0 <= k < |Repeat("a", n)| ==> Repeat("a", n)[k] == 'a'
  {
    if n > 0 {
      RepeatChar(n - 1);
      assert Repeat("a", n) == "a" + Repeat("a", n - 1);
    }
  }

  /** The characters the regular expression `.` does not match. */
  predicate LineTerminator(c: char) {
    c == '\n' || c == '\r' || c == '\U{2028}' || c == '\U{2029}'
  }

  predicate NoTerminator(s: String) {
    forall k :: 0 <= k < |s| ==> !LineTerminator(s[k])
  }

  predicate IsDigit(c: char) {
    '0' <= c <= '9'
  }

  /** The length of the run of `\s` characters starting at `i`. */
  function WhiteRun(s: String, i: nat): (n: nat)
    requires i <= |s|
    ensures i + n <= |s| && (i + n == |s| || !IsWhite(s[i + n]))
    ensures forall k :: i <= k < i + n ==> IsWhite(s[k])
    decreases |s| - i
  {
    if i < |s| && IsWhite(s[i]) then 1 + WhiteRun(s, i + 1) else 0
  }

  /** The length of the run of digits starting at `i`. */
  function DigitRun(s: String, i: nat): (n: nat)
    requires i <= |s|
    ensures i + n <= |s| && (i + n == |s| || !IsDigit(s[i + n]))
    ensures forall k :: i <= k < i + n ==> IsDigit(s[k])
    decreases |s| - i
  {
    if i < |s| && IsDigit(s[i]) then 1 + DigitRun(s, i + 1) else 0
  }

  /**
   * The rest of `^\s*([0-9]+)\s+(.{49})\s+(.*)$` once the first `\s+` has
   * taken `j` of the white-space characters after the digits at `b`: the
   * greedy `\s+` gives them back one at a time until the rest matches.
   */
  function MatchColumns(line: String, b: nat, j: nat): (r: Option<(String, String)>)
    requires b + j <= |line|
    decreases j
  {
    if j == 0 then None
    else
      var start := b + j;
      var e := start + (SecondColumnCharacters - 1);
      if e <= |line| && NoTerminator(line[start..e]) && WhiteRun(line, e) > 0
         && NoTerminator(line[e + WhiteRun(line, e)..])
      then Some((line[start..e], line[e + WhiteRun(line, e)..]))
      else MatchColumns(line, b, j - 1)
  }

  /** The regular expression of `parseLineFromPs`: the three groups, or no match. */
  function MatchPsLine(line: String): (r: Option<(String, String, String)>)
    ensures r.Some? ==> |r.value.0| > 0 && forall k :: 0 <= k < |r.value.0| ==> IsDigit(r.value.0[k])
    ensures r.Some? ==> |r.value.1| == SecondColumnCharacters - 1 && NoTerminator(r.value.1) && NoTerminator(r.value.2)
  {
    var a := WhiteRun(line, 0);
    var d := DigitRun(line, a);
    if d == 0 then None
    else
      var b := a + d;
      var k := WhiteRun(line, b);
      match MatchColumns(line, b, k)
      case None => None
      case Some((comm, args)) =>
        MatchColumnsShape(line, b, k);
        Some((line[a..b], comm, args))
  }

  lemma {:induction false} MatchColumnsShape(line: String, b: nat, j: nat)
    requires b + j <= |line|
    ensures var r := MatchColumns(line, b, j);
      r.Some? ==> |r.value.0| == SecondColumnCharacters - 1 && NoTerminator(r.value.0) && NoTerminator(r.value.1)
    decreases j
  {
    if j > 0 {
      MatchColumnsShape(line, b, j - 1);
    }
  }

  /** `parseLineFromPs`: the trimmed groups as the process's pid, executable name and command line. */
  function ParseLineFromPs(line: String): (r: Option<Process>)
    ensures r.Some? <==> MatchPsLine(line).Some?
    ensures r.Some? ==> var g := MatchPsLine(line).value;
      r.value == Process(Some(Trim(g.1)), Some(Trim(g.0)), Some(Trim(g.2)))
  {
    match MatchPsLine(line)
    case None => None
    case Some((pid, executable, cmdline)) => Some(Process(Some(Trim(executable)), Some(Trim(pid)), Some(Trim(cmdline))))
  }

  /**
   * A line laid out as `ps` lays it out (the pid, a blank, the 49-character
   * comm column starting with a non-blank, a blank, the arguments) gives back
   * its three columns.
   */
  lemma PsColumnsRoundTrip(pid: String, comm: String, args: String)
    requires |pid| > 0 && forall k :: 0 <= k < |pid| ==> IsDigit(pid[k])
    requires |comm| == SecondColumnCharacters - 1 && NoTerminator(comm) && !IsWhite(comm[0])
    requires NoTerminator(args) && (args == [] || !IsWhite(args[0]))
    ensures MatchPsLine(pid + " " + comm + " " + args) == Some((pid, comm, args))
  {
    var line := pid + " " + comm + " " + args;
    var n := |pid|;
    PsLineLayout(pid, comm, args);
    PsLinePid(line, pid);
    PsLineBlanks(line, n, comm, args);
    MatchColumnsFirst(line, n);
    MatchPsLineAt(line, n);
  }

  /** Where each column of a laid-out line sits. */
  lemma PsLineLayout(pid: String, comm: String, args: String)
    ensures var line := pid + " " + comm + " " + args;
      var n, e := |pid|, |pid| + 1 + |comm|;
      |line| == e + 1 + |args| && line[..n] == pid && line[n] == ' '
      && line[n + 1..e] == comm && line[e] == ' ' && line[e + 1..] == args
  {
  }

  /** The digits before the first blank are the pid. */
  lemma PsLinePid(line: String, pid: String)
    requires |pid| > 0 && forall k :: 0 <= k < |pid| ==> IsDigit(pid[k])
    requires |pid| < |line| && line[..|pid|] == pid && line[|pid|] == ' '
    ensures WhiteRun(line, 0) == 0 && DigitRun(line, 0) == |pid|
  {
    assert line[0] == pid[0];
    forall k | 0 <= k < |pid| ensures IsDigit(line[k]) {
      assert line[k] == pid[k];
    }
    DigitRunIs(line, 0, |pid|);
  }

  /** One blank before the comm column and one after it. */
  lemma PsLineBlanks(line: String, n: nat, comm: String, args: String)
    requires |comm| == SecondColumnCharacters - 1 && !IsWhite(comm[0]) && (args == [] || !IsWhite(args[0]))
    requires var e := n + 1 + |comm|;
      |line| == e + 1 + |args| && line[n] == ' ' && line[n + 1..e] == comm && line[e] == ' ' && line[e + 1..] == args
    ensures WhiteRun(line, n) == 1 && WhiteRun(line, n + SecondColumnCharacters) == 1
    ensures line[n + 1..n + SecondColumnCharacters] == comm && line[n + SecondColumnCharacters + 1..] == args
  {
    var e := n + 1 + |comm|;
    assert line[n + 1] == comm[0];
    if e + 1 < |line| {
      assert line[e + 1] == args[0];
    }
  }

  /** With a single blank after the pid, the columns are read at once. */
  lemma MatchColumnsFirst(line: String, b: nat)
    requires b + SecondColumnCharacters <= |line|
    requires NoTerminator(line[b + 1..b + SecondColumnCharacters]) && WhiteRun(line, b + SecondColumnCharacters) > 0
    requires NoTerminator(line[b + SecondColumnCharacters + WhiteRun(line, b + SecondColumnCharacters)..])
    ensures MatchColumns(line, b, 1)
         == Some((line[b + 1..b + SecondColumnCharacters], line[b + SecondColumnCharacters + WhiteRun(line, b + SecondColumnCharacters)..]))
  {
  }

  /** A line without leading blanks, its pid ending at `n`, its columns matched from there. */
  lemma MatchPsLineAt(line: String, n: nat)
    requires n <= |line| && WhiteRun(line, 0) == 0 && DigitRun(line, 0) == n > 0
    requires MatchColumns(line, n, WhiteRun(line, n)).Some?
    ensures var c := MatchColumns(line, n, WhiteRun(line, n)).value;
      MatchPsLine(line) == Some((line[..n], c.0, c.1))
  {
  }

  lemma DigitRunIs(s: String, i: nat, n: nat)
    requires i + n <= |s| && forall k :: i <= k < i + n ==> IsDigit(s[k])
    requires i + n == |s| || !IsDigit(s[i + n])
    ensures DigitRun(s, i) == n
    decreases n
  {
    if n > 0 {
      DigitRunIs(s, i + 1, n - 1);
    }
  }

  /** The processes of the lines of a `ps` table after its header: empty lines and lines that do not match are skipped. */
  function PsEntries(lines: seq<String>): (r: seq<Process>)
    ensures |r| <= |lines|
  {
    if lines == [] then []
    else
      var last := lines[|lines| - 1];
      var init := PsEntries(lines[..|lines| - 1]);
      if last == [] then init
      else match ParseLineFromPs(last)
        case None => init
        case Some(p) => init + [p]
  }

  /** `parseProcessFromPsArray`: line 0 is the table header. */
  method ParseProcessFromPsArray(lines: seq<String>) returns (processEntries: seq<Process>)
    ensures processEntries == if |lines| == 0 then [] else PsEntries(lines[1..])
  {
    processEntries := [];
    if |lines| == 0 {
      return;
    }
    var i := 1;
    while i < |lines|
      invariant 1 <= i <= |lines|
      invariant processEntries == PsEntries(lines[1..i])
    {
      PsEntriesStep(lines, i);
      var line := lines[i];
      if line != [] {
        var process := ParseLineFromPs(line);
        if process.Some? {
          processEntries := processEntries + [process.value];
        }
      }
      i := i + 1;
    }
    assert lines[1..i] == lines[1..];
  }

  /** One more line of the table. */
  lemma PsEntriesStep(lines: seq<String>, i: int)
    requires 1 <= i < |lines|
    ensures var init := PsEntries(lines[1..i]);
      PsEntries(lines[1..i + 1])
      == if lines[i] == [] || ParseLineFromPs(lines[i]).None? then init else init + [ParseLineFromPs(lines[i]).value]
  {
    var s := lines[1..i + 1];
    assert s[..|s| - 1] == lines[1..i];
    assert s[|s| - 1] == lines[i];
  }

  /** `parseProcessFromPs`: the same over the output split at `os.EOL`. */
  method ParseProcessFromPs(processes: String, eol: String) returns (processEntries: seq<Process>)
    requires |eol| > 0
    ensures processEntries == PsEntries(Split(processes, eol)[1..])
  {
    processEntries := ParseProcessFromPsArray(Split(processes, eol));
  }

  /** Whatever the header says, it is not read as a process; nor is an empty line. */
  lemma PsHeaderAndBlankLinesSkipped(header: String, lines: seq<String>)
    ensures PsEntries(([header] + lines)[1..]) == PsEntries(lines)
    ensures PsEntries(lines + [""]) == PsEntries(lines)
  {
    assert ([header] + lines)[1..] == lines;
    assert (lines + [""])[..|lines|] == lines;
  }

  /** What every process read from `ps` satisfies: a digit-only pid and no line break in the command line. */
  predicate PsWellFormed(p: Process) {
    p.pid.Some? && |p.pid.value| > 0 && (forall m :: 0 <= m < |p.pid.value| ==> IsDigit(p.pid.value[m]))
    && p.name.Some? && p.commandLine.Some? && NoTerminator(p.commandLine.value)
  }

  lemma ParsedLineWellFormed(line: String)
    requires ParseLineFromPs(line).Some?
    ensures PsWellFormed(ParseLineFromPs(line).value)
  {
    var g := MatchPsLine(line).value;
    TrimDigits(g.0);
    TrimKeepsNoTerminator(g.2);
  }

  lemma {:induction false} PsEntriesWellFormed(lines: seq<String>)
    ensures forall k :: 0 <= k < |PsEntries(lines)| ==> PsWellFormed(PsEntries(lines)[k])
  {
    if lines != [] {
      var init := PsEntries(lines[..|lines| - 1]);
      PsEntriesWellFormed(lines[..|lines| - 1]);
      var last := lines[|lines| - 1];
      var parsed := ParseLineFromPs(last);
      if last != [] && parsed.Some? {
        ParsedLineWellFormed(last);
        assert PsEntries(lines) == init + [parsed.value];
        WellFormedSnoc(init, parsed.value);
      } else {
        assert PsEntries(lines) == init;
      }
    }
  }

  lemma WellFormedSnoc(init: seq<Process>, p: Process)
    requires forall k :: 0 <= k < |init| ==> PsWellFormed(init[k])
    requires PsWellFormed(p)
    ensures forall k :: 0 <= k < |init + [p]| ==> PsWellFormed((init + [p])[k])
  {
    forall k | 0 <= k < |init| + 1 ensures PsWellFormed((init + [p])[k]) {
      if k < |init| {
        assert (init + [p])[k] == init[k];
      } else {
        assert (init + [p])[k] == p;
      }
    }
  }

  lemma TrimDigits(s: String)
    requires |s| > 0 && forall k :: 0 <= k < |s| ==> IsDigit(s[k])
    ensures Trim(s) == s
  {
    assert forall k :: 0 <= k < |s| ==> !IsWhite(s[k]);
    assert |TrimEnd(s)| == |s|;
    assert |TrimStart(s)| == |s|;
  }

  lemma TrimKeepsNoTerminator(s: String)
    requires NoTerminator(s)
    ensures NoTerminator(Trim(s))
  {
    var i := TrimOffset(s);
    SliceNoTerminator(s, i, i + |Trim(s)|);
  }

  lemma SliceNoTerminator(s: String, i: int, j: int)
    requires NoTerminator(s) && 0 <= i <= j <= |s|
    ensures NoTerminator(s[i..j])
  {
    forall k | 0 <= k < j - i ensures !LineTerminator(s[i..j][k]) {
      assert s[i..j][k] == s[i + k];
    }
  }

  // wmic

  const WmicNameTitle: String := "Name"
  const WmicCommandLineTitle: String := "CommandLine"
  const WmicPidTitle: String := "ProcessId"
  /** The `\??\` prefix of an extended-length path. */
  const ExtendedLengthPath: String := "\\??\\"

  const NoProcess: Process := Process(None, None, None)

  /** The value of a `CommandLine=` line: trimmed, without a leading `\??\`. */
  function CommandLineValue(value: String): String {
    if StartsWith(value, ExtendedLengthPath) then Trim(Trim(value[|ExtendedLengthPath|..])) else Trim(value)
  }

  /** `parseLineFromWmic`: a `key=value` line sets the field its key names; other lines change nothing. */
  function ParseLineFromWmic(line: String, process: Process): (r: Process)
    ensures '=' !in line ==> r == process
    ensures IndexOf(line, "=") >= 0 ==>
      var i := IndexOf(line, "=");
      var key, value := line[..i], line[i + 1..];
      r == (if key == WmicNameTitle then process.(name := Some(Trim(value)))
            else if key == WmicPidTitle then process.(pid := Some(Trim(value)))
            else if key == WmicCommandLineTitle then process.(commandLine := Some(CommandLineValue(value)))
            else process)
  {
    var splitter := IndexOf(line, "=");
    IndexOfChar(line, '=');
    if splitter < 0 then process
    else
      var key := line[..splitter];
      var value := line[splitter + 1..];
      if key == WmicNameTitle then process.(name := Some(Trim(value)))
      else if key == WmicPidTitle then process.(pid := Some(Trim(value)))
      else if key == WmicCommandLineTitle then process.(commandLine := Some(CommandLineValue(value)))
      else process
  }

  /**
   * The records of the remaining WMIC lines, `current` holding the fields
   * read since the last record: a line starting with `ProcessId` closes a
   * record.
   */
  function WmicEntries(lines: seq<String>, current: Process): seq<Process>
    decreases |lines|
  {
    if lines == [] then []
    else if lines[0] == [] then WmicEntries(lines[1..], current)
    else
      var p := ParseLineFromWmic(lines[0], current);
      if StartsWith(lines[0], WmicPidTitle) then [p] + WmicEntries(lines[1..], NoProcess)
      else WmicEntries(lines[1..], p)
  }

  /** `parseProcessFromWmic`. */
  method ParseProcessFromWmic(processes: String, eol: String) returns (processEntries: seq<Process>)
    requires |eol| > 0
    ensures processEntries == WmicEntries(Split(processes, eol), NoProcess)
  {
    var lines := Split(processes, eol);
    var currentProcess := NoProcess;
    processEntries := [];
    var i := 0;
    while i < |lines|
      invariant i <= |lines|
      invariant processEntries + WmicEntries(lines[i..], currentProcess) == WmicEntries(lines, NoProcess)
    {
      var line := lines[i];
      assert lines[i..][1..] == lines[i + 1..];
      if line != [] {
        currentProcess := ParseLineFromWmic(line, currentProcess);
        if StartsWith(line, WmicPidTitle) {
          processEntries := processEntries + [currentProcess];
          currentProcess := NoProcess;
        }
      }
      i := i + 1;
    }
  }

  function CountPidLines(lines: seq<String>): nat {
    if lines == [] then 0 else (if StartsWith(lines[0], WmicPidTitle) then 1 else 0) + CountPidLines(lines[1..])
  }

  /** One record per line starting with `ProcessId`. */
  lemma {:induction false} WmicRecordPerPidLine(lines: seq<String>, current: Process)
    ensures |WmicEntries(lines, current)| == CountPidLines(lines)
    decreases |lines|
  {
    if lines != [] {
      if lines[0] == [] {
        WmicRecordPerPidLine(lines[1..], current);
      } else {
        var p := ParseLineFromWmic(lines[0], current);
        WmicRecordPerPidLine(lines[1..], if StartsWith(lines[0], WmicPidTitle) then NoProcess else p);
      }
    }
  }

  lemma KeyLine(key: String, value: String)
    requires '=' !in key
    ensures IndexOf(key + "=" + value, "=") == |key| && '=' in key + "=" + value
    ensures (key + "=" + value)[..|key|] == key && (key + "=" + value)[|key| + 1..] == value
  {
    var line := key + "=" + value;
    assert line[|key|] == '=';
    IndexOfChar(line, '=');
    assert forall k :: 0 <= k < |key| ==> line[k] == key[k];
  }

  lemma WmicCons(line: String, rest: seq<String>, current: Process)
    requires line != []
    ensures var p := ParseLineFromWmic(line, current);
      WmicEntries([line] + rest, current)
        == if StartsWith(line, WmicPidTitle) then [p] + WmicEntries(rest, NoProcess) else WmicEntries(rest, p)
  {
    assert ([line] + rest)[1..] == rest;
  }

  /** A `key=value` line with a key free of `=` sets the field its key names. */
  lemma KeyedLine(key: String, value: String, p: Process)
    requires '=' !in key
    ensures ParseLineFromWmic(key + "=" + value, p)
         == if key == WmicNameTitle then p.(name := Some(Trim(value)))
            else if key == WmicPidTitle then p.(pid := Some(Trim(value)))
            else if key == WmicCommandLineTitle then p.(commandLine := Some(CommandLineValue(value)))
            else p
  {
    KeyLine(key, value);
  }

  lemma NameLine(name: String, p: Process)
    ensures ParseLineFromWmic("Name=" + name, p) == p.(name := Some(Trim(name)))
    ensures !StartsWith("Name=" + name, WmicPidTitle)
  {
    assert "Name=" + name == WmicNameTitle + "=" + name;
    KeyedLine(WmicNameTitle, name, p);
    assert ("Name=" + name)[0] != WmicPidTitle[0];
  }

  lemma CommandLineLine(commandLine: String, p: Process)
    ensures ParseLineFromWmic("CommandLine=" + commandLine, p) == p.(commandLine := Some(CommandLineValue(commandLine)))
    ensures !StartsWith("CommandLine=" + commandLine, WmicPidTitle)
  {
    assert "CommandLine=" + commandLine == WmicCommandLineTitle + "=" + commandLine;
    KeyedLine(WmicCommandLineTitle, commandLine, p);
    assert ("CommandLine=" + commandLine)[0] != WmicPidTitle[0];
  }

  lemma PidLine(pid: String, p: Process)
    ensures ParseLineFromWmic("ProcessId=" + pid, p) == p.(pid := Some(Trim(pid)))
    ensures StartsWith("ProcessId=" + pid, WmicPidTitle)
  {
    PidLineText(pid);
    KeyedLine(WmicPidTitle, pid, p);
  }

  lemma PidLineText(pid: String)
    ensures "ProcessId=" + pid == WmicPidTitle + "=" + pid
    ensures StartsWith("ProcessId=" + pid, WmicPidTitle)
  {
    assert "ProcessId=" + pid == WmicPidTitle + "=" + pid;
    assert ("ProcessId=" + pid)[..|WmicPidTitle|] == WmicPidTitle;
  }

  lemma ConsThree(a: String, b: String, c: String, rest: seq<String>)
    ensures [a, b, c] + rest == [a] + ([b] + ([c] + rest))
  {
  }

  /** A `Name`, `CommandLine`, `ProcessId` block, as `wmic ... /FORMAT:list` prints it, gives one complete record. */
  lemma WmicBlock(name: String, commandLine: String, pid: String, rest: seq<String>)
    ensures WmicEntries(["Name=" + name, "CommandLine=" + commandLine, "ProcessId=" + pid] + rest, NoProcess)
         == [Process(Some(Trim(name)), Some(Trim(pid)), Some(CommandLineValue(commandLine)))] + WmicEntries(rest, NoProcess)
  {
    var l1, l2, l3 := "Name=" + name, "CommandLine=" + commandLine, "ProcessId=" + pid;
    var p1 := NoProcess.(name := Some(Trim(name)));
    var p2 := p1.(commandLine := Some(CommandLineValue(commandLine)));
    var p3 := p2.(pid := Some(Trim(pid)));
    ConsThree(l1, l2, l3, rest);
    assert WmicEntries([l1] + ([l2] + ([l3] + rest)), NoProcess) == WmicEntries([l2] + ([l3] + rest), p1) by {
      NameLine(name, NoProcess);
      WmicCons(l1, [l2] + ([l3] + rest), NoProcess);
    }
    assert WmicEntries([l2] + ([l3] + rest), p1) == WmicEntries([l3] + rest, p2) by {
      CommandLineLine(commandLine, p1);
      WmicCons(l2, [l3] + rest, p1);
    }
    assert WmicEntries([l3] + rest, p2) == [p3] + WmicEntries(rest, NoProcess) by {
      PidLine(pid, p2);
      WmicCons(l3, rest, p2);
    }
  }

  // Ordering

  /** The executable name the sort puts first. */
  function DotnetProcessName(osPlatform: String): String {
    if osPlatform == "win32" then "dotnet.exe" else "dotnet"
  }

  /** The comparator reads the name, and the command line of `dotnet` entries. */
  predicate Sortable(p: Process) {
    p.name.Some? && p.commandLine.Some?
  }

  predicate IsDotnet(dotnet: String, p: Process)
    requires Sortable(p)
  {
    ToLower(p.name.value) == dotnet
  }

  /** The comparator of `sortProcessEntries`; it answers -1 or 1, never 0. */
  function CompareProcesses(dotnet: String, a: Process, b: Process): (c: int)
    requires Sortable(a) && Sortable(b)
    ensures c == -1 || c == 1
    ensures c == -1 <==> Before(dotnet, a, b)
  {
    if IsDotnet(dotnet, a) && IsDotnet(dotnet, b) then
      if StringLess(ToLower(a.commandLine.value), ToLower(b.commandLine.value)) then -1 else 1
    else if IsDotnet(dotnet, a) then -1
    else if IsDotnet(dotnet, b) then 1
    else if StringLess(ToLower(a.name.value), ToLower(b.name.value)) then -1 else 1
  }

  /** The order the comparator means: `dotnet` entries first, by command line, then the others by name. */
  predicate Before(dotnet: String, a: Process, b: Process)
    requires Sortable(a) && Sortable(b)
  {
    if IsDotnet(dotnet, a) != IsDotnet(dotnet, b) then IsDotnet(dotnet, a)
    else if IsDotnet(dotnet, a) then StringLess(ToLower(a.commandLine.value), ToLower(b.commandLine.value))
    else StringLess(ToLower(a.name.value), ToLower(b.name.value))
  }

  /** `Before` is a strict weak order: "not after" is transitive. */
  lemma NotBeforeTransitive(dotnet: String, a: Process, b: Process, c: Process)
    requires Sortable(a) && Sortable(b) && Sortable(c)
    requires !Before(dotnet, b, a) && !Before(dotnet, c, b)
    ensures !Before(dotnet, c, a)
  {
    if IsDotnet(dotnet, a) == IsDotnet(dotnet, b) == IsDotnet(dotnet, c) {
      if IsDotnet(dotnet, a) {
        LexLeTransitive(ToLower(a.commandLine.value), ToLower(b.commandLine.value), ToLower(c.commandLine.value));
      } else {
        LexLeTransitive(ToLower(a.name.value), ToLower(b.name.value), ToLower(c.name.value));
      }
    }
  }

  lemma BeforeAsymmetric(dotnet: String, a: Process, b: Process)
    requires Sortable(a) && Sortable(b) && Before(dotnet, a, b)
    ensures !Before(dotnet, b, a)
  {
    if IsDotnet(dotnet, a) == IsDotnet(dotnet, b) {
      if IsDotnet(dotnet, a) {
        LexLeTotal(ToLower(a.commandLine.value), ToLower(b.commandLine.value));
      } else {
        LexLeTotal(ToLower(a.name.value), ToLower(b.name.value));
      }
    }
  }

  predicate AllSortable(s: seq<Process>) {
    forall k :: 0 <= k < |s| ==> Sortable(s[k])
  }

  predicate SortedProcesses(dotnet: String, s: seq<Process>)
    requires AllSortable(s)
  {
    forall i, j :: 0 <= i < j < |s| ==> !Before(dotnet, s[j], s[i])
  }

  /** A sequence of sortable entries is its front and its sortable last entry. */
  lemma SortableParts(s: seq<Process>)
    requires AllSortable(s) && |s| > 0
    ensures s == s[..|s| - 1] + [s[|s| - 1]] && AllSortable(s[..|s| - 1]) && Sortable(s[|s| - 1])
  {
    var init := s[..|s| - 1];
    forall k | 0 <= k < |init| ensures Sortable(init[k]) {
      assert init[k] == s[k];
    }
  }

  lemma SortableSnoc(s: seq<Process>, y: Process)
    requires AllSortable(s) && Sortable(y)
    ensures AllSortable(s + [y])
  {
    forall k | 0 <= k < |s| + 1 ensures Sortable((s + [y])[k]) {
      if k < |s| {
        assert (s + [y])[k] == s[k];
      }
    }
  }

  /** Insertion from the back, moving past every entry the comparator puts after `x`. */
  function InsertProcess(dotnet: String, sorted: seq<Process>, x: Process): (r: seq<Process>)
    requires AllSortable(sorted) && Sortable(x)
    ensures multiset(r) == multiset(sorted) + multiset{x} && |r| == |sorted| + 1 && AllSortable(r)
  {
    if |sorted| == 0 then [x]
    else
      var init, last := sorted[..|sorted| - 1], sorted[|sorted| - 1];
      SortableParts(sorted);
      if CompareProcesses(dotnet, last, x) > 0 then
        var r0 := InsertProcess(dotnet, init, x);
        SortableSnoc(r0, last);
        r0 + [last]
      else
        SortableSnoc(sorted, x);
        sorted + [x]
  }

  /** `processEntries.sort(...)`, as an insertion sort. */
  function SortProcesses(dotnet: String, s: seq<Process>): (r: seq<Process>)
    requires AllSortable(s)
    ensures multiset(r) == multiset(s) && |r| == |s| && AllSortable(r)
  {
    if |s| == 0 then []
    else
      SortableParts(s);
      InsertProcess(dotnet, SortProcesses(dotnet, s[..|s| - 1]), s[|s| - 1])
  }

  /** `sortProcessEntries`. */
  function SortProcessEntries(processEntries: seq<Process>, osPlatform: String): (items: seq<AttachItem>)
    requires AllSortable(processEntries)
    ensures var sorted := SortProcesses(DotnetProcessName(osPlatform), processEntries);
      |items| == |sorted| == |processEntries| && forall k :: 0 <= k < |items| ==> items[k] == ToAttachItem(sorted[k])
  {
    var sorted := SortProcesses(DotnetProcessName(osPlatform), processEntries);
    seq(|sorted|, k requires 0 <= k < |sorted| => ToAttachItem(sorted[k]))
  }

  predicate NoneAfter(dotnet: String, s: seq<Process>, y: Process)
    requires AllSortable(s) && Sortable(y)
  {
    forall k :: 0 <= k < |s| ==> !Before(dotnet, y, s[k])
  }

  lemma SortedAppend(dotnet: String, s: seq<Process>, y: Process)
    requires AllSortable(s) && Sortable(y) && SortedProcesses(dotnet, s) && NoneAfter(dotnet, s, y)
    ensures AllSortable(s + [y]) && SortedProcesses(dotnet, s + [y])
  {
    var t := s + [y];
    assert forall k :: 0 <= k < |s| ==> t[k] == s[k];
  }

  lemma NoneAfterParts(dotnet: String, s: seq<Process>, y: Process)
    requires AllSortable(s) && |s| > 0 && Sortable(y) && NoneAfter(dotnet, s, y)
    ensures AllSortable(s[..|s| - 1]) && NoneAfter(dotnet, s[..|s| - 1], y) && !Before(dotnet, y, s[|s| - 1])
  {
    SortableParts(s);
    var init := s[..|s| - 1];
    forall k | 0 <= k < |init| ensures !Before(dotnet, y, init[k]) {
      assert init[k] == s[k];
    }
  }

  lemma NoneAfterSnoc(dotnet: String, s: seq<Process>, z: Process, y: Process)
    requires AllSortable(s) && Sortable(z) && Sortable(y) && NoneAfter(dotnet, s, y) && !Before(dotnet, y, z)
    ensures AllSortable(s + [z]) && NoneAfter(dotnet, s + [z], y)
  {
    SortableSnoc(s, z);
    forall k | 0 <= k < |s| + 1 ensures !Before(dotnet, y, (s + [z])[k]) {
      if k < |s| {
        assert (s + [z])[k] == s[k];
      }
    }
  }

  /** The front of a sorted sequence is sorted, and nothing in it comes after its last entry. */
  lemma SortedParts(dotnet: String, s: seq<Process>)
    requires AllSortable(s) && |s| > 0 && SortedProcesses(dotnet, s)
    ensures AllSortable(s[..|s| - 1]) && SortedProcesses(dotnet, s[..|s| - 1]) && NoneAfter(dotnet, s[..|s| - 1], s[|s| - 1])
  {
    SortableParts(s);
    var init := s[..|s| - 1];
    forall i, j | 0 <= i < j < |init| ensures !Before(dotnet, init[j], init[i]) {
      assert init[i] == s[i] && init[j] == s[j];
    }
    forall k | 0 <= k < |init| ensures !Before(dotnet, s[|s| - 1], init[k]) {
      assert init[k] == s[k];
    }
  }

  lemma {:induction false} InsertNoneAfter(dotnet: String, sorted: seq<Process>, x: Process, y: Process)
    requires AllSortable(sorted) && Sortable(x) && Sortable(y)
    requires NoneAfter(dotnet, sorted, y) && !Before(dotnet, y, x)
    ensures NoneAfter(dotnet, InsertProcess(dotnet, sorted, x), y)
    decreases |sorted|
  {
    if |sorted| > 0 {
      var init, last := sorted[..|sorted| - 1], sorted[|sorted| - 1];
      SortableParts(sorted);
      NoneAfterParts(dotnet, sorted, y);
      if CompareProcesses(dotnet, last, x) > 0 {
        InsertNoneAfter(dotnet, init, x, y);
        var r0 := InsertProcess(dotnet, init, x);
        assert InsertProcess(dotnet, sorted, x) == r0 + [last];
        NoneAfterSnoc(dotnet, r0, last, y);
      } else {
        assert InsertProcess(dotnet, sorted, x) == sorted + [x];
        NoneAfterSnoc(dotnet, sorted, x, y);
      }
    }
  }

  lemma {:induction false} InsertProcessSorted(dotnet: String, sorted: seq<Process>, x: Process)
    requires AllSortable(sorted) && Sortable(x) && SortedProcesses(dotnet, sorted)
    ensures SortedProcesses(dotnet, InsertProcess(dotnet, sorted, x))
    decreases |sorted|
  {
    if |sorted| > 0 {
      var init, last := sorted[..|sorted| - 1], sorted[|sorted| - 1];
      SortedParts(dotnet, sorted);
      if CompareProcesses(dotnet, last, x) > 0 {
        var r0 := InsertProcess(dotnet, init, x);
        assert SortedProcesses(dotnet, r0) by {
          InsertProcessSorted(dotnet, init, x);
        }
        assert NoneAfter(dotnet, r0, last) by {
          InsertNoneAfter(dotnet, init, x, last);
        }
        SortedAppend(dotnet, r0, last);
        assert InsertProcess(dotnet, sorted, x) == r0 + [last];
      } else {
        assert NoneAfter(dotnet, sorted, x) by {
          BeforeAsymmetric(dotnet, last, x);
          forall k | 0 <= k < |sorted| ensures !Before(dotnet, x, sorted[k]) {
            if k < |sorted| - 1 {
              NotBeforeTransitive(dotnet, sorted[k], last, x);
            }
          }
        }
        SortedAppend(dotnet, sorted, x);
        assert InsertProcess(dotnet, sorted, x) == sorted + [x];
      }
    }
  }

  /** The sort orders by the comparator's meaning and keeps every entry. */
  lemma {:induction false} SortProcessesSorted(dotnet: String, s: seq<Process>)
    requires AllSortable(s)
    ensures SortedProcesses(dotnet, SortProcesses(dotnet, s)) && multiset(SortProcesses(dotnet, s)) == multiset(s)
  {
    if |s| > 0 {
      SortProcessesSorted(dotnet, s[..|s| - 1]);
      InsertProcessSorted(dotnet, SortProcesses(dotnet, s[..|s| - 1]), s[|s| - 1]);
    }
  }

  /** Every `dotnet` entry is offered before every other entry. */
  lemma DotnetFirst(processEntries: seq<Process>, osPlatform: String)
    requires AllSortable(processEntries)
    ensures var dotnet := DotnetProcessName(osPlatform);
      var sorted := SortProcesses(dotnet, processEntries);
      forall i, j :: 0 <= i < j < |sorted| && IsDotnet(dotnet, sorted[j]) ==> IsDotnet(dotnet, sorted[i])
  {
    SortProcessesSorted(DotnetProcessName(osPlatform), processEntries);
  }
}
