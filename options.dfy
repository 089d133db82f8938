/**
 * OmniSharp option reading (`Options.Read`, `readPathOption`,
 * `readUseGlobalMonoOption`) for the 1.17.1 and 1.16.2 extensions.
 * A configuration section is a map from setting keys to values; `has` is map
 * membership and `get(key, default)` falls back to the default for a missing key.
 */
module Options {
  import opened Wrappers
  import opened JsString
  import opened JsValue

  datatype Section = Section(values: map<String, Value>)

  predicate Has(c: Section, key: String) {
    key in c.values
  }

  function Get(c: Section, key: String, default: Value): (r: Value)
    ensures Has(c, key) ==> r == c.values[key]
    ensures !Has(c, key) ==> r == default
  {
    if key in c.values then c.values[key] else default
  }

  /** The path option: `omnisharp.path`, else the legacy `csharp.omnisharp`, else null. */
  function ReadPathOption(csharp: Section, omnisharp: Section): (r: Value)
    ensures Has(omnisharp, "path") ==> r == omnisharp.values["path"]
    ensures !Has(omnisharp, "path") && Has(csharp, "omnisharp") ==> r == csharp.values["omnisharp"]
    ensures !Has(omnisharp, "path") && !Has(csharp, "omnisharp") ==> r == Null
  {
    if Has(omnisharp, "path") then Get(omnisharp, "path", Undefined)
    else if Has(csharp, "omnisharp") then Get(csharp, "omnisharp", Undefined)
    else Null
  }

  /** A legacy boolean mono switch: true means "always", false means "auto". */
  function ToUseGlobalMonoValue(v: Value): (r: Value)
    ensures r == Str("always") || r == Str("auto")
    ensures r == Str("always") <==> Truthy(v)
  {
    if Truthy(v) then Str("always") else Str("auto")
  }

  /**
   * The `useGlobalMono` option: `omnisharp.useGlobalMono`, else the legacy
   * `omnisharp.useMono`, else the older `csharp.omnisharpUsesMono`, else "auto".
   */
  function ReadUseGlobalMonoOption(omnisharp: Section, csharp: Section): (r: Value)
    ensures Has(omnisharp, "useGlobalMono") ==> r == omnisharp.values["useGlobalMono"]
    ensures !Has(omnisharp, "useGlobalMono") && Has(omnisharp, "useMono") ==>
      r == ToUseGlobalMonoValue(omnisharp.values["useMono"])
    ensures !Has(omnisharp, "useGlobalMono") && !Has(omnisharp, "useMono") && Has(csharp, "omnisharpUsesMono") ==>
      r == ToUseGlobalMonoValue(csharp.values["omnisharpUsesMono"])
    ensures !Has(omnisharp, "useGlobalMono") && !Has(omnisharp, "useMono") && !Has(csharp, "omnisharpUsesMono") ==>
      r == Str("auto")
  {
    if Has(omnisharp, "useGlobalMono") then Get(omnisharp, "useGlobalMono", Str("auto"))
    else if Has(omnisharp, "useMono") then ToUseGlobalMonoValue(Get(omnisharp, "useMono", Undefined))
    else if Has(csharp, "omnisharpUsesMono") then ToUseGlobalMonoValue(Get(csharp, "omnisharpUsesMono", Undefined))
    else Str("auto")
  }

  const LoggingLevelTypeError := "TypeError: loggingLevel.toLowerCase is not a function"

  /**
   * The logging level with the legacy "verbose" (in any case) read as "debug".
   * A truthy value that is not a string has no `toLowerCase` and throws.
   */
  function NormalizeLoggingLevel(v: Value): (r: Result<Value, String>)
    ensures v.Str? && ToLower(v.s) == "verbose" ==> r == Ok(Str("debug"))
    ensures v.Str? && ToLower(v.s) != "verbose" ==> r == Ok(v)
    ensures !v.Str? && !Truthy(v) ==> r == Ok(v)
    ensures !v.Str? && Truthy(v) ==> r.Err?
  {
    if !Truthy(v) then Ok(v)
    else if v.Str? then (if ToLower(v.s) == "verbose" then Ok(Str("debug")) else Ok(v))
    else Err(LoggingLevelTypeError)
  }

  /** The options record of the 1.17.1 extension, fields in constructor order. */
  datatype Options = Options(
    path: Value, useGlobalMono: Value, waitForDebugger: Value, loggingLevel: Value,
    autoStart: Value, projectLoadTimeout: Value, maxProjectResults: Value,
    useEditorFormattingSettings: Value, useFormatting: Value,
    showReferencesCodeLens: Value, showTestsCodeLens: Value, disableCodeActions: Value,
    disableMSBuildDiagnosticWarning: Value, minFindSymbolsFilterLength: Value,
    maxFindSymbolsItems: Value, razorDisabled: Value, razorDevMode: Value,
    razorPluginPath: Value, defaultLaunchSolution: Value, monoPath: Value)

  /** `!!razorConfig && razorConfig.get(key, false)`. */
  function RazorFlag(razor: Option<Section>, key: String): (r: Value)
    ensures razor.None? ==> r == Bool(false)
    ensures razor.Some? && !Has(razor.value, key) ==> r == Bool(false)
    ensures razor.Some? && Has(razor.value, key) ==> r == razor.value.values[key]
  {
    if razor.None? then Bool(false) else Get(razor.value, key, Bool(false))
  }

  /** `Options.Read` of the 1.17.1 extension over the omnisharp, csharp and razor sections. */
  function Read(omnisharp: Section, csharp: Section, razor: Option<Section>): (r: Result<Options, String>)
    ensures r.Err? <==> NormalizeLoggingLevel(Get(omnisharp, "loggingLevel", Str("information"))).Err?
    ensures r.Ok? ==> r.value.path == ReadPathOption(csharp, omnisharp)
    ensures r.Ok? ==> r.value.useGlobalMono == ReadUseGlobalMonoOption(omnisharp, csharp)
    ensures r.Ok? ==> (Truthy(r.value.monoPath) || r.value.monoPath == Undefined)
    ensures r.Ok? && !Has(omnisharp, "monoPath") ==> r.value.monoPath == Undefined
    ensures r.Ok? && razor.None? ==>
      r.value.razorDisabled == Bool(false) && r.value.razorDevMode == Bool(false) && r.value.razorPluginPath == Undefined
  {
    var level := NormalizeLoggingLevel(Get(omnisharp, "loggingLevel", Str("information")));
    if level.Err? then Err(level.error) else
    Ok(Options(
      ReadPathOption(csharp, omnisharp),
      ReadUseGlobalMonoOption(omnisharp, csharp),
      Get(omnisharp, "waitForDebugger", Bool(false)),
      level.value,
      Get(omnisharp, "autoStart", Bool(true)),
      Get(omnisharp, "projectLoadTimeout", Num(60)),
      Get(omnisharp, "maxProjectResults", Num(250)),
      Get(omnisharp, "useEditorFormattingSettings", Bool(true)),
      Get(csharp, "format.enable", Bool(true)),
      Get(csharp, "referencesCodeLens.enabled", Bool(true)),
      Get(csharp, "testsCodeLens.enabled", Bool(true)),
      Get(csharp, "disableCodeActions", Bool(false)),
      Get(omnisharp, "disableMSBuildDiagnosticWarning", Bool(false)),
      Get(omnisharp, "minFindSymbolsFilterLength", Num(0)),
      Get(omnisharp, "maxFindSymbolsItems", Num(1000)),
      RazorFlag(razor, "disabled"),
      RazorFlag(razor, "devmode"),
      if razor.Some? then Get(razor.value, "plugin.path", Undefined) else Undefined,
      Get(omnisharp, "defaultLaunchSolution", Undefined),
      Or(Get(omnisharp, "monoPath", Undefined), Undefined)))
  }

  const Empty := Section(map[])

  /** With no settings at all every option takes its documented default. */
  lemma ReadDefaults()
    ensures Read(Empty, Empty, None) == Ok(Options(
      Null, Str("auto"), Bool(false), Str("information"), Bool(true), Num(60), Num(250),
      Bool(true), Bool(true), Bool(true), Bool(true), Bool(false), Bool(false), Num(0),
      Num(1000), Bool(false), Bool(false), Undefined, Undefined, Undefined))
  {
    var info := Str("information");
    assert |ToLower(info.s)| == 11;
    assert NormalizeLoggingLevel(info) == Ok(info);
    assert Get(Empty, "loggingLevel", info) == info;
  }

  /** A configured "verbose" logging level, in any case, is read as "debug". */
  lemma VerboseIsDebug(omnisharp: Section, csharp: Section, razor: Option<Section>)
    requires Has(omnisharp, "loggingLevel") && omnisharp.values["loggingLevel"].Str?
    requires ToLower(omnisharp.values["loggingLevel"].s) == "verbose"
    ensures Read(omnisharp, csharp, razor).Ok?
    ensures Read(omnisharp, csharp, razor).value.loggingLevel == Str("debug")
  {
  }

  /** An empty `omnisharp.monoPath` is read as undefined. */
  lemma EmptyMonoPathIsUndefined(omnisharp: Section, csharp: Section, razor: Option<Section>)
    requires Has(omnisharp, "monoPath") && omnisharp.values["monoPath"] == Str("")
    requires Read(omnisharp, csharp, razor).Ok?
    ensures Read(omnisharp, csharp, razor).value.monoPath == Undefined
  {
  }

  /** The options record of the 1.16.2 extension (no symbol-search or razor options). */
  datatype LegacyOptions = LegacyOptions(
    path: Value, useGlobalMono: Value, waitForDebugger: Value, loggingLevel: Value,
    autoStart: Value, projectLoadTimeout: Value, maxProjectResults: Value,
    useEditorFormattingSettings: Value, useFormatting: Value,
    showReferencesCodeLens: Value, showTestsCodeLens: Value, disableCodeActions: Value,
    disableMSBuildDiagnosticWarning: Value, defaultLaunchSolution: Value, monoPath: Value)

  /** `Options.Read` of the 1.16.2 extension over the omnisharp and csharp sections. */
  function ReadLegacy(omnisharp: Section, csharp: Section): (r: Result<LegacyOptions, String>)
    ensures r.Err? <==> NormalizeLoggingLevel(Get(omnisharp, "loggingLevel", Str("information"))).Err?
    ensures r.Ok? ==> r.value.path == ReadPathOption(csharp, omnisharp)
    ensures r.Ok? ==> r.value.useGlobalMono == ReadUseGlobalMonoOption(omnisharp, csharp)
    ensures r.Ok? && !Has(omnisharp, "monoPath") ==> r.value.monoPath == Undefined
  {
    var level := NormalizeLoggingLevel(Get(omnisharp, "loggingLevel", Str("information")));
    if level.Err? then Err(level.error) else
    Ok(LegacyOptions(
      ReadPathOption(csharp, omnisharp),
      ReadUseGlobalMonoOption(omnisharp, csharp),
      Get(omnisharp, "waitForDebugger", Bool(false)),
      level.value,
      Get(omnisharp, "autoStart", Bool(true)),
      Get(omnisharp, "projectLoadTimeout", Num(60)),
      Get(omnisharp, "maxProjectResults", Num(250)),
      Get(omnisharp, "useEditorFormattingSettings", Bool(true)),
      Get(csharp, "format.enable", Bool(true)),
      Get(csharp, "referencesCodeLens.enabled", Bool(true)),
      Get(csharp, "testsCodeLens.enabled", Bool(true)),
      Get(csharp, "disableCodeActions", Bool(false)),
      Get(omnisharp, "disableMSBuildDiagnosticWarning", Bool(false)),
      Get(omnisharp, "defaultLaunchSolution", Undefined),
      Or(Get(omnisharp, "monoPath", Undefined), Undefined)))
  }

  /** The 1.16.2 reader agrees with the 1.17.1 reader on every option both versions have. */
  lemma LegacyAgrees(omnisharp: Section, csharp: Section, razor: Option<Section>)
    ensures ReadLegacy(omnisharp, csharp).Ok? <==> Read(omnisharp, csharp, razor).Ok?
    ensures ReadLegacy(omnisharp, csharp).Ok? ==>
      var o := Read(omnisharp, csharp, razor).value;
      ReadLegacy(omnisharp, csharp).value == LegacyOptions(
        o.path, o.useGlobalMono, o.waitForDebugger, o.loggingLevel, o.autoStart,
        o.projectLoadTimeout, o.maxProjectResults, o.useEditorFormattingSettings,
        o.useFormatting, o.showReferencesCodeLens, o.showTestsCodeLens,
        o.disableCodeActions, o.disableMSBuildDiagnosticWarning,
        o.defaultLaunchSolution, o.monoPath)
  {
  }
}
