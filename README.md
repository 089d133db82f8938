# Verified model of the algorithmic core of a dotfiles repository

The repository holds the configuration of two editors together with the packages and extensions vendored into them. This project models the self-contained algorithms inside that vendored code and proves their properties in Dafny. Each component below is a Dafny module in a file of its own.

**Sublime Text packages**
- `backrefs.dfy` (`Backrefs`): the `bre`/`bregex` facades over Python's `re` and the `regex` module. It covers:
  - the two 500-entry least-recently-used caches of search and replace translations, and `purge`;
  - the search and replace dispatch, and `_assert_expandable`;
  - the immutable `Bre`/`Bregex` pattern objects with their equality and hash;
  - `compile` and `compile_replace`, with their flag, `pattern_hash` and format rules;
  - `expand`, the `sub`/`subf` guards and pickling;
  - the V0/V1 version selection of `bregex`.
- `uni_ranges.dfy` (`UniRanges`) and `uni_props.dfy` (`UniProps`): the Unicode property-table builder `unipropgen.py`:
  - `uniformat`, and `char2range`'s compression of a code-point list into character-class text and its complement, with the way that text reads back;
  - `format_name`, `create_span` and `not_explicitly_defined`;
  - the POSIX class formulas, and the complement steps of the age and quick-check tables.
- `excepthook_chain.dfy` (`ExcepthookChain`): the SFTP package's shared chain of uncaught-exception callbacks.

**VS Code C# extension (OmniSharp)**, versions 1.15.2, 1.16.2 and 1.17.1
- `request_queue.dfy`: the priority, normal and deferred request queues and their `drain`.
- `json_cleaner.dfy`: the tolerant JSON cleaner, with its imperative scanner proved equal to a reference scan.
- `json_contributions.dfy`: JSON completion and hover helpers.
- `platform.dfy`: the os-release parser and the platform record.
- `process_picker.dfy`: the `ps`/`wmic` output parsers, the pipe-transport options, the pipe-command builders and the process order.
- `launcher.dfy`: launch-target discovery and the launch decisions.
- `protocol.dfy`: target-framework and .NET Core project classification, and the code-structure walk.
- `diagnostics.dfy`: the diagnostics `Advisor` counters.
- `options.dfy`: option reading with its legacy-key fallback.
- `options_schema.dfy`: the option-schema generator's `$ref` resolution and default merging.
- `code_lens.dfy` and `code_lens_legacy.dfy`: code-lens construction in the new and old response shapes.
- `assets.dfy`: build-task discovery and the debug-asset generator.
- `common.dfy`: the path helpers.

**Other VS Code extensions**
- `tslint_server.dfy`: the TSLint language server's configuration cache, diagnostics and "fix all" selection of non-overlapping fixes.
- `xml_formatter.dfy`, `xml_formatter_legacy.dfy` and `xml_text.dfy`: the XML pretty-printer's character loop in versions 2.4.0 and 2.3.1, and the comment sanitiser they share.
- `docker_debug.dfy`: the Docker extension's .NET Core debug-configuration defaults.
- `acr_tools.dfy`: its Azure Container Registry id and URL slicing.

**Shared modules**
- `js_string.dfy` writes out the JavaScript string built-ins the sources rely on, with their edge cases.
- `js_value.dfy` holds JavaScript values.
- `wrappers.dfy` holds `Option` and `Result`.

Where a source fault was evident, the model keeps two definitions: one that computes what the code as written computes, and the intended one. A lemma shows the input on which they differ, and the operations of the model use the as-written half. These pairs are listed under "Findings".

## Model

| member | source | states |
|---|---|---|
| AcrTools.Search | vscode/.vscode/extensions/peterjausovec.vscode-docker-0.4.0/out/utils/Azure/acrTools.js:233-237 | String.prototype.search: -1 exactly when the pattern matches nowhere, otherwise the first position where it matches |
| AcrTools.SubscriptionIdOfResourceId | vscode/.vscode/extensions/peterjausovec.vscode-docker-0.4.0/out/utils/Azure/acrTools.js:22-23 | the slice between "/subscriptions/" and the first "/resourceGroups/" gives back the subscription of any resource id whose subscription is a GUID |
| AcrTools.ResourceGroupsFound | vscode/.vscode/extensions/peterjausovec.vscode-docker-0.4.0/out/utils/Azure/acrTools.js:36 | in a resource id the first "resourceGroups/" is the one right after the subscription |
| AcrTools.ProvidersFound | vscode/.vscode/extensions/peterjausovec.vscode-docker-0.4.0/out/utils/Azure/acrTools.js:36 | in a resource id whose group is a path segment other than "providers", the first "/providers/" is the one right after the group |
| AcrTools.ResourceGroupOfResourceId | vscode/.vscode/extensions/peterjausovec.vscode-docker-0.4.0/out/utils/Azure/acrTools.js:34-37 | getResourceGroupName gives back the group of any resource id whose subscription is a GUID and whose group is a segment other than "providers" |
| AcrTools.BlobItems | vscode/.vscode/extensions/peterjausovec.vscode-docker-0.4.0/out/utils/Azure/acrTools.js:232 | the "/"-separated items after "https://" are never empty as a list |
| AcrTools.GetBlobInfo | vscode/.vscode/extensions/peterjausovec.vscode-docker-0.4.0/out/utils/Azure/acrTools.js:231-247 | a TypeError exactly when the URL has fewer than five items, since items[4].slice is then read from undefined |
| AcrTools.BlobInfoFields | vscode/.vscode/extensions/peterjausovec.vscode-docker-0.4.0/out/utils/Azure/acrTools.js:231-247 | each field of the result is read off the URL and its items as the source computes it |
| AcrTools.SasTokenAfterQuestionMark | vscode/.vscode/extensions/peterjausovec.vscode-docker-0.4.0/out/utils/Azure/acrTools.js:236-237 | the SAS token is what follows the first "?" of the fifth item, and the blob name ends with what precedes it |
| AcrTools.FirstDotBlob | vscode/.vscode/extensions/peterjausovec.vscode-docker-0.4.0/out/utils/Azure/acrTools.js:233-234 | ".blob" and ".blob." first match right after the account name, when the account does not contain "blob" and no "b" comes before it |
| AcrTools.BlobItemsOfUrl | vscode/.vscode/extensions/peterjausovec.vscode-docker-0.4.0/out/utils/Azure/acrTools.js:232 | the items of a blob URL are its host, its container, the three path segments and the query part |
| AcrTools.AccountOfUrl | vscode/.vscode/extensions/peterjausovec.vscode-docker-0.4.0/out/utils/Azure/acrTools.js:233 | the account name of a blob URL whose account does not contain "blob" is read back exactly |
| AcrTools.EndpointSuffixOfHost | vscode/.vscode/extensions/peterjausovec.vscode-docker-0.4.0/out/utils/Azure/acrTools.js:234 | the endpoint suffix of such a host is read back exactly |
| AcrTools.BlobInfoHost | vscode/.vscode/extensions/peterjausovec.vscode-docker-0.4.0/out/utils/Azure/acrTools.js:233-238 | the account, endpoint suffix and host of such a blob URL |
| AcrTools.BlobInfoPath | vscode/.vscode/extensions/peterjausovec.vscode-docker-0.4.0/out/utils/Azure/acrTools.js:235-237 | the container, blob name and SAS token of a blob URL whose last segment has no "?" |
| AcrTools.BlobInfoOfUrl | vscode/.vscode/extensions/peterjausovec.vscode-docker-0.4.0/out/utils/Azure/acrTools.js:231-247 | for a blob URL whose account does not contain "blob", getBlobInfo returns its account, suffix, container, three-segment blob name, token and host |
| Assets.FindBuildTask | vscode/.vscode/extensions/ms-vscode.csharp-1.17.1/out/src/assets.js:261-276 | no task list gives no task |
| Assets.FindBuildTaskMeaning | vscode/.vscode/extensions/ms-vscode.csharp-1.17.1/out/src/assets.js:261-276 | the build task found is the first one of the list for the configuration's version (isBuildCommand for 0.1.0, group "build" for 2.0.0); none is found exactly when the list is absent or has none |
| Assets.PushBuildTask | vscode/.vscode/extensions/ms-vscode.csharp-1.17.1/out/src/assets.js:274-276 | one call of the nested findBuildTask appends the build task found, if any, to the result |
| Assets.GetBuildTasks | vscode/.vscode/extensions/ms-vscode.csharp-1.17.1/out/src/assets.js:257-286 | the loop over the top-level, windows, osx and linux sections returns BuildTasks of the configuration |
| Assets.BuildTasksShape | vscode/.vscode/extensions/ms-vscode.csharp-1.17.1/out/src/assets.js:257-286 | at most four tasks, one per section, each a build task of the configuration's version |
| Assets.OtherVersionsHaveNone | vscode/.vscode/extensions/ms-vscode.csharp-1.17.1/out/src/assets.js:264-271 | a version other than 0.1.0 and 2.0.0 yields no build task |
| Assets.TopLevelFirst | vscode/.vscode/extensions/ms-vscode.csharp-1.17.1/out/src/assets.js:277 | when the top-level list holds a build task, the first task returned comes from it |
| Assets.GetOperations | vscode/.vscode/extensions/ms-vscode.csharp-1.17.1/out/src/assets.js:248-331 | addTasksJson exactly when tasks.json is missing; updateTasksJson exactly when it parses and has no build task; addLaunchJson exactly when launch.json is missing |
| Assets.HasAddOperationsAsWritten | vscode/.vscode/extensions/ms-vscode.csharp-1.17.1/out/src/assets.js:245-247 | as written the test is true exactly when addLaunchJson is set; addTasksJson is never looked at |
| Assets.HasAddOperations | vscode/.vscode/extensions/ms-vscode.csharp-1.17.1/out/src/assets.js:245-247 | as intended: true exactly when either file is to be added |
| Assets.MissingTasksJsonIgnored | vscode/.vscode/extensions/ms-vscode.csharp-1.17.1/out/src/assets.js:245-247 | with launch.json present and tasks.json missing the written test reports nothing to add, while the intended one reports it |
| Assets.AssetsOfferedIffMissing | vscode/.vscode/extensions/ms-vscode.csharp-1.17.1/out/src/assets.js:245-331 | the intended test offers the assets exactly when one of the two files is missing |
| Assets.IndentJsonString | vscode/.vscode/extensions/ms-vscode.csharp-1.17.1/out/src/assets.js:373-375 | the result is the indented text with only white space cut from its two ends, and it neither starts nor ends with white space |
| Assets.IndentedLines | vscode/.vscode/extensions/ms-vscode.csharp-1.17.1/out/src/assets.js:374 | the lines of the indented text are the lines of the input, each after numSpaces spaces |
| Assets.ResourcePath | vscode/.vscode/extensions/ms-vscode.csharp-1.17.1/out/src/assets.js:28-40 | the first non-empty of the Cake path, the ScriptCs path and the first project.json project's path; failing those the solution path when there is an MSBuild part, else nothing |
| Assets.InitializeProjectData | vscode/.vscode/extensions/ms-vscode.csharp-1.17.1/out/src/assets.js:48-87 | a TypeError exactly when there is no executable MSBuild project and no DotNet part, since DotNet.Projects is then read from undefined |
| Assets.FirstExecutableMSBuild | vscode/.vscode/extensions/ms-vscode.csharp-1.17.1/out/src/assets.js:53-57 | there is an executable MSBuild project exactly when some project is executable, and the first one is the first executable project of the input |
| Assets.FirstExecutableProjectJson | vscode/.vscode/extensions/ms-vscode.csharp-1.17.1/out/src/assets.js:69-74 | the same for project.json projects with a Debug configuration |
| Assets.ProjectJsonHead | vscode/.vscode/extensions/ms-vscode.csharp-1.17.1/out/src/assets.js:69 | a project's own entries come before those of the projects after it |
| Assets.MSBuildProjectTakesPrecedence | vscode/.vscode/extensions/ms-vscode.csharp-1.17.1/out/src/assets.js:53-66 | an executable MSBuild project wins: the generator targets the first one, in the Debug configuration |
| Assets.ProjectJsonFallback | vscode/.vscode/extensions/ms-vscode.csharp-1.17.1/out/src/assets.js:68-86 | without an executable MSBuild project the target is the first executable project.json project, and one is found whenever one exists |
| Assets.ComputeProgramPath | vscode/.vscode/extensions/ms-vscode.csharp-1.17.1/out/src/assets.js:116-127 | the placeholder path without a project; otherwise bin/configuration/framework/executable under the project's directory relative to the workspace |
| Assets.ComputeWorkingDirectory | vscode/.vscode/extensions/ms-vscode.csharp-1.17.1/out/src/assets.js:128-138 | ${workspaceFolder} without a project or without a project path; otherwise the project's directory relative to the workspace, under ${workspaceFolder} |
| Assets.CreateBuildTaskDescription | vscode/.vscode/extensions/ms-vscode.csharp-1.17.1/out/src/assets.js:159-171 | a "dotnet build" process task with the $msCompile matcher whose second argument is the project file relative to the workspace as a POSIX path, or empty without a project |
| Assets.CreateTasksConfiguration | vscode/.vscode/extensions/ms-vscode.csharp-1.17.1/out/src/assets.js:172-178 | a version 2.0.0 configuration with exactly one dotnet build task |
| Assets.GeneratedTasksNotRecognised | vscode/.vscode/extensions/ms-vscode.csharp-1.17.1/out/src/assets.js:164-178 | the generated build task has no group, so getBuildTasks finds no build task in it and a generated tasks.json is marked for update |
| Backrefs.KeyIndex | sublime/Packages/backrefs/st3/backrefs/bre.py:71-82 | the position found holds the key and no earlier entry does; the table's length means the key is not cached |
| Backrefs.TouchKeepsTable | sublime/Packages/backrefs/st3/backrefs/bre.py:71-82 | a call through a 500-entry least-recently-used cache keeps at most 500 entries, no key twice, and every cached value equal to what the cached function gives for its key |
| Backrefs.TouchRecency | sublime/Packages/backrefs/st3/backrefs/bre.py:71-82 | after a call its key and value are the most recent entry; a hit evicts nothing, and a miss evicts at most the least recent entry, only when the table was full |
| Backrefs.LruCache.constructor | sublime/Packages/backrefs/st3/backrefs/bre.py:71-82 | a cache starts empty, with its size and function |
| Backrefs.LruCache.Call | sublime/Packages/backrefs/st3/backrefs/bre.py:71-82 | the value returned is what the cached function gives for the key, whether it was cached or not, and the entries become Touch of the old ones |
| Backrefs.LruCache.Clear | sublime/Packages/backrefs/st3/backrefs/bre.py:95-99 | the cache is emptied and stays valid |
| Backrefs.UnicodeModePrecedence | sublime/Packages/backrefs/st3/backrefs/bre.py:120-133 | for re, ASCII or LOCALE makes the translator's unicode setting False, else UNICODE makes it True, else it is unset; VERBOSE alone decides verbose |
| Backrefs.VersionPrecedence | sublime/Packages/backrefs/st3/backrefs/bregex.py:132-142 | for regex, VERSION0 selects V0 even beside VERSION1, VERSION1 alone selects V1, neither gives 0 |
| Backrefs.ModeIgnoresOtherFlags | sublime/Packages/backrefs/st3/backrefs/bre.py:120-133 | flags other than the ones the mode reads do not change the translator's mode, so they share one cache entry |
| Backrefs.Translation | sublime/Packages/backrefs/st3/backrefs/bre.py:120-143 | a text pattern is translated; an own wrapper gives its compiled pattern and an own compiled pattern passes as it is, only without flags (ValueError otherwise); anything else is a TypeError; the error cases in both directions |
| Backrefs.SearchPattern | sublime/Packages/backrefs/st3/backrefs/bre.py:326-329 | succeeds exactly when the translation does; a text pattern becomes the host compile of its translation with the caller's flags; a compiled pattern is returned as it is |
| Backrefs.NeIsNotEq | sublime/Packages/backrefs/st3/backrefs/bre.py:211-227 | the separately written __ne__ is exactly the negation of __eq__ |
| Backrefs.EqIsEquivalence | sublime/Packages/backrefs/st3/backrefs/bre.py:211-218 | __eq__ is reflexive, symmetric and transitive on wrappers and false for any other object |
| Backrefs.EqualWrappersHashAlike | sublime/Packages/backrefs/st3/backrefs/bre.py:162-174 | two wrappers that are equal and were built by the constructor have the same hash |
| Backrefs.PickleRoundTrip | sublime/Packages/backrefs/st3/backrefs/bre.py:483-487 | unpickling the pickled state gives a wrapper equal to the original, identical to it when the original came from the constructor, and itself constructed |
| Backrefs.Wrapped | sublime/Packages/backrefs/st3/backrefs/bre.py:310-323 | an own wrapper is returned as it is when neither auto_compile nor flags are given, and is a ValueError otherwise; anything else is compiled as compile_search does and wrapped, auto_compile defaulting to true |
| Backrefs.CompileIdempotent | sublime/Packages/backrefs/st3/backrefs/bre.py:310-323 | compiling a result of compile again with no flags and no auto_compile gives the same wrapper |
| Backrefs.CompileText | sublime/Packages/backrefs/st3/backrefs/bre.py:310-323 | a text pattern is translated in the mode its flags select and compiled with the same flags |
| Backrefs.ReplaceFor | sublime/Packages/backrefs/st3/backrefs/bre.py:332-352 | the pattern must be a compiled pattern of this engine and the replacement not a callable (TypeError otherwise, in both directions); a template string is parsed with FORMAT taken from the flags and bound to hash(pattern); a compiled template is accepted as it is exactly when no flags are given and its pattern hash matches |
| Backrefs.ReplaceForIdempotent | sublime/Packages/backrefs/st3/backrefs/bre.py:332-352 | a template compiled for a pattern is accepted again, unchanged, for that pattern |
| Backrefs.ReplaceForOtherPattern | sublime/Packages/backrefs/st3/backrefs/bre.py:343-347 | a template compiled for one pattern is a ValueError for a pattern with another hash |
| Backrefs.AssertExpandable | sublime/Packages/backrefs/st3/backrefs/bre.py:146-156 | a callable is a TypeError; a compiled template of the wrong format mode is a ValueError; a template string passes |
| Backrefs.ApplyReplaceBackrefs | sublime/Packages/backrefs/st3/backrefs/bre.py:108-117 | no match is a ValueError; a compiled template expands against the match; a template string is parsed against the match's pattern first; a callable gives None |
| Backrefs.Expand | sublime/Packages/backrefs/st3/backrefs/bre.py:362-366 | always a string on success; a callable is a TypeError; a format template is a ValueError; a template string expands exactly when there is a match |
| Backrefs.ExpandFormat | sublime/Packages/backrefs/st3/backrefs/bre.py:369-373 | the same for format templates: a non-format template is a ValueError |
| Backrefs.ExpandTextAsCompiled | sublime/Packages/backrefs/st3/backrefs/bre.py:108-117 | expanding a template string gives the same result as expanding the template it compiles to against the match's own pattern |
| Backrefs.AutoCompiled | sublime/Packages/backrefs/st3/backrefs/bre.py:236-251 | a compiled template of the wrong mode is a ValueError; a string without auto_compile is returned as it is, or is an AttributeError in format mode; a callable passes; an auto-compiled string becomes a template of the requested mode bound to the wrapper's pattern |
| Backrefs.AutoCompileKeepsOwnTemplate | sublime/Packages/backrefs/st3/backrefs/bre.py:236-251 | a template compiled for the wrapper's own pattern in the right mode is handed back unchanged |
| Backrefs.WrapperSubCall | sublime/Packages/backrefs/st3/backrefs/bre.py:289-307 | the wrapper's sub family calls its pattern's `sub` for sub and subf and its `subn` for subn and subfn, with the regex host's format variants exactly for subf and subfn on a regex wrapper; the positional and keyword arguments are forwarded unchanged; a callable is passed through; a text without auto-compile is accepted exactly for sub and subn and is an AttributeError for subf and subfn; a text with auto-compile is parsed against the wrapper's pattern in the call's format mode, and fails when the backends differ; a template of the other format mode is a ValueError, and one of the right mode passes unchanged exactly when its backend and pattern hash match the pattern |
| Backrefs.WrapperFormatSubHost | sublime/Packages/backrefs/st3/backrefs/bregex.py:351-369 | a Bregex wrapper's subf and subfn call regex's native subf and subfn; a Bre wrapper's call sub and subn; the module functions always call sub or subn |
| Backrefs.PositionalFlagsIgnored | sublime/Packages/backrefs/st3/backrefs/bre.py:376-416 | as written: flags read at args index 2 (3 for split) lie past the host's own flags position, so a positional VERBOSE is not seen by the translator |
| Backrefs.IntendedFlagsReachTranslator | sublime/Packages/backrefs/st3/backrefs/bre.py:376-416 | read at the host's own position, the translator sees the flags the host compiles with, and agrees with the as-written reading whenever flags are given by keyword |
| Backrefs.SubPositionalFlagsIgnored | sublime/Packages/backrefs/st3/backrefs/bre.py:419-480 | as written: the sub family reads flags at args index 4, which never holds the flags the host takes after count |
| Backrefs.SubReplacement | sublime/Packages/backrefs/st3/backrefs/bre.py:419-480 | a callable reaches the host untouched; a template or template string goes through compile_replace, a string with FORMAT exactly for subf and subfn; the host call is sub or subn on the compiled pattern |
| Backrefs.ModuleSubCall | sublime/Packages/backrefs/st3/backrefs/bre.py:419-480 | a compiled template of the wrong format mode is a ValueError before anything else; the pattern is compiled as compile_search does with the flags at index 4; a failed compile fails the call; the positional arguments and the keyword flags reach the host call unchanged |
| Backrefs.ModuleSubFlagsRefused | sublime/Packages/backrefs/st3/backrefs/bre.py:419-480 | the host refuses the forwarded call with a ValueError exactly when the forwarded arguments carry non-zero flags for the already compiled pattern; a call the host accepts with at most one positional argument used no flags in compile_search |
| Backrefs.SubReplacementModes | sublime/Packages/backrefs/st3/backrefs/bre.py:419-480 | with a compiled pattern, a callable is handed on as it is and a template string is compiled in the call's format mode |
| Backrefs.Caches.constructor | sublime/Packages/backrefs/st3/backrefs/bre.py:71-82 | both caches start empty, with 500 entries each |
| Backrefs.Caches.CacheSize | sublime/Packages/backrefs/st3/backrefs/bre.py:85-92 | the size of either cache never exceeds 500 |
| Backrefs.Caches.ApplySearchBackrefs | sublime/Packages/backrefs/st3/backrefs/bre.py:120-143 | returns Translation, and only a text pattern touches the search cache |
| Backrefs.Caches.CompileSearch | sublime/Packages/backrefs/st3/backrefs/bre.py:326-329 | returns SearchPattern and touches the search cache as the translation does |
| Backrefs.Caches.Compile | sublime/Packages/backrefs/st3/backrefs/bre.py:310-323 | returns Wrapped; an own wrapper leaves the search cache alone |
| Backrefs.Caches.CompileReplace | sublime/Packages/backrefs/st3/backrefs/bre.py:332-352 | returns ReplaceFor; only a parsed template string touches the replace cache |
| Backrefs.Caches.AutoCompile | sublime/Packages/backrefs/st3/backrefs/bre.py:236-251 | returns AutoCompiled and touches the replace cache only when a string is compiled |
| Backrefs.Caches.WrapperSub | sublime/Packages/backrefs/st3/backrefs/bre.py:289-307 | returns WrapperSubCall, with the replace cache effect of auto-compiling |
| Backrefs.Caches.Search | sublime/Packages/backrefs/st3/backrefs/bre.py:376-416 | what the host gets from search, match, fullmatch, split, splititer, findall and finditer is Translation under the flags as the source reads them |
| Backrefs.Caches.PrepareReplacement | sublime/Packages/backrefs/st3/backrefs/bre.py:465-480 | returns SubReplacement and touches the replace cache for a template string |
| Backrefs.Caches.Sub | sublime/Packages/backrefs/st3/backrefs/bre.py:419-480 | returns ModuleSubCall; a mode-mismatched template touches no cache |
| Backrefs.Caches.Purge | sublime/Packages/backrefs/st3/backrefs/bre.py:355-359 | both caches are emptied and the host's own purge is called once |
| Backrefs.Caches.WrapperCompile | sublime/Packages/backrefs/st3/backrefs/bre.py:253-256 | a wrapper's own compile returns compile_replace against its pattern, with that call's cache effect |
| CodeLens.ToEditorRange | vscode/.vscode/extensions/ms-vscode.csharp-1.17.1/out/src/features/codeLensProvider.js:24-29 | every coordinate of the server's 1-based range becomes 0-based |
| CodeLens.IsValidElementForReferences | vscode/.vscode/extensions/ms-vscode.csharp-1.17.1/out/src/features/codeLensProvider.js:179-193 | as intended: a namespace never gets a references lens, and a method only when its name is not Equals, Finalize, GetHashCode or ToString |
| CodeLens.PrototypeNameHidesReferences | vscode/.vscode/extensions/ms-vscode.csharp-1.17.1/out/src/features/codeLensProvider.js:189 | a method named toString is refused by the object lookup as written and accepted as intended |
| CodeLens.ReferencesFilterAgrees | vscode/.vscode/extensions/ms-vscode.csharp-1.17.1/out/src/features/codeLensProvider.js:179-193 | the written lookup and the intended filter agree on every name that is not an Object.prototype member |
| CodeLens.GetTestFrameworkAndMethodName | vscode/.vscode/extensions/ms-vscode.csharp-1.17.1/out/src/features/codeLensProvider.js:214-221 | no properties give [null, null]; otherwise the testFramework and testMethodName properties |
| CodeLens.IsValidClassForTest | vscode/.vscode/extensions/ms-vscode.csharp-1.17.1/out/src/features/codeLensProvider.js:194-202 | a class with at least one child that is a valid test method |
| CodeLens.NoNamesBeforeFirst | vscode/.vscode/extensions/ms-vscode.csharp-1.17.1/out/src/features/codeLensProvider.js:163-172 | before the first child with a framework, no child's framework matches it |
| CodeLens.ValidClassHasTests | vscode/.vscode/extensions/ms-vscode.csharp-1.17.1/out/src/features/codeLensProvider.js:158-175 | a valid test class has a first framework, and at least one test method name is listed |
| CodeLens.CollectClassTests | vscode/.vscode/extensions/ms-vscode.csharp-1.17.1/out/src/features/codeLensProvider.js:160-172 | the first truthy framework among the children wins, and exactly the method names of the children with that framework are collected, in order |
| CodeLens.CreateCodeLensesForElement | vscode/.vscode/extensions/ms-vscode.csharp-1.17.1/out/src/features/codeLensProvider.js:141-178 | the lenses of one element are ElementLenses: the references lens, then the test lenses, with the TypeError a test class without a name range raises |
| CodeLens.CreateCodeLenses | vscode/.vscode/extensions/ms-vscode.csharp-1.17.1/out/src/features/codeLensProvider.js:133-140 | the lenses of every element, in the pre-order of the structure walk |
| CodeLens.ReferencesLensExactly | vscode/.vscode/extensions/ms-vscode.csharp-1.17.1/out/src/features/codeLensProvider.js:143-148 | as written: an element gets a references lens exactly when they are switched on, it has a name range, it is not a namespace, and it is not a method whose name is one of the four filtered names or an Object.prototype member |
| CodeLens.PrototypeMethodWithoutReferences | vscode/.vscode/extensions/ms-vscode.csharp-1.17.1/out/src/features/codeLensProvider.js:189 | a method named valueOf gets no references lens, though it is not one of the four filtered names |
| CodeLens.NoLensesWhenDisabled | vscode/.vscode/extensions/ms-vscode.csharp-1.17.1/out/src/features/codeLensProvider.js:143-177 | with both kinds of lens switched off, no element gets a lens |
| CodeLens.TestMethodLenses | vscode/.vscode/extensions/ms-vscode.csharp-1.17.1/out/src/features/codeLensProvider.js:150-157 | a valid test method with a name range gets exactly a run lens and then a debug lens for its one test method name |
| CodeLens.TestClassLenses | vscode/.vscode/extensions/ms-vscode.csharp-1.17.1/out/src/features/codeLensProvider.js:158-175 | a valid test class with a name range gets a run and a debug container lens for the first framework and its method names |
| CodeLens.ReferencesTitle | vscode/.vscode/extensions/ms-vscode.csharp-1.17.1/out/src/features/codeLensProvider.js:101 | "1 reference" for one usage, otherwise the count followed by " references" |
| CodeLensLegacy.ToRange | vscode/.vscode/extensions/ms-vscode.csharp-1.15.2/out/src/features/codeLensProvider.js:55 | every coordinate of the node's 1-based location becomes 0-based |
| CodeLensLegacy.IsFilteredMethod | vscode/.vscode/extensions/ms-vscode.csharp-1.15.2/out/src/features/codeLensProvider.js:52 | as intended: a method declaration named Equals, Finalize, GetHashCode or ToString is filtered |
| CodeLensLegacy.PrototypeNameHidesNode | vscode/.vscode/extensions/ms-vscode.csharp-1.15.2/out/src/features/codeLensProvider.js:52 | a method declaration named valueOf is filtered by the object lookup as written, and is not filtered as intended |
| CodeLensLegacy.FrameworkOf | vscode/.vscode/extensions/ms-vscode.csharp-1.15.2/out/src/features/codeLensProvider.js:134-140 | nunit for an NUnitTestMethod feature, mstest for an MSTestMethod feature, xunit otherwise |
| CodeLensLegacy.FirstTestFeature | vscode/.vscode/extensions/ms-vscode.csharp-1.15.2/out/src/features/codeLensProvider.js:132 | the first feature named XunitTestMethod, NUnitTestMethod or MSTestMethod; none exactly when there is no such feature |
| CodeLensLegacy.GetTestFeatureAndFramework | vscode/.vscode/extensions/ms-vscode.csharp-1.15.2/out/src/features/codeLensProvider.js:131-144 | the first test feature and its framework, or [null, null] |
| CodeLensLegacy.TestDataFramework | vscode/.vscode/extensions/ms-vscode.csharp-1.15.2/out/src/features/codeLensProvider.js:116-126 | a framework is found among the children exactly when some child has test data |
| CodeLensLegacy.CollectTestMethods | vscode/.vscode/extensions/ms-vscode.csharp-1.15.2/out/src/features/codeLensProvider.js:114-125 | the loop collects the test data of every child with a test feature, in order, and keeps the framework of the first one |
| CodeLensLegacy.UpdateCodeLensForTestClass | vscode/.vscode/extensions/ms-vscode.csharp-1.15.2/out/src/features/codeLensProvider.js:109-130 | nothing for a class without a method declaration or without test methods; otherwise a Run All Tests and a Debug All Tests lens are appended |
| CodeLensLegacy.UpdateCodeLensForTest | vscode/.vscode/extensions/ms-vscode.csharp-1.15.2/out/src/features/codeLensProvider.js:90-108 | nothing without Features; the class lenses for a class with children in an MSBuild-only project; then the node's own Run Test and Debug Test lenses when it has a test feature |
| CodeLensLegacy.ConvertQuickFix | vscode/.vscode/extensions/ms-vscode.csharp-1.15.2/out/src/features/codeLensProvider.js:50-66 | the bucket gains QuickFixLenses of the node: its references lens, its children's lenses, then its test lenses; nothing at all for a method the written filter finds |
| CodeLensLegacy.ConvertChildren | vscode/.vscode/extensions/ms-vscode.csharp-1.15.2/out/src/features/codeLensProvider.js:59-61 | the loop over the children appends the lenses of each child in order |
| CodeLensLegacy.FilteredMethodSkipsSubtree | vscode/.vscode/extensions/ms-vscode.csharp-1.15.2/out/src/features/codeLensProvider.js:52-54 | a filtered method contributes no lens, not even for its children |
| CodeLensLegacy.PrototypeMethodSubtreeDropped | vscode/.vscode/extensions/ms-vscode.csharp-1.15.2/out/src/features/codeLensProvider.js:52-54 | a method named valueOf yields no lens at all, whatever its subtree holds and whichever lenses are on |
| CodeLensLegacy.OnlyReferencesLenses | vscode/.vscode/extensions/ms-vscode.csharp-1.15.2/out/src/features/codeLensProvider.js:50-66 | with only references lenses switched on, every lens produced is a references lens |
| CodeLensLegacy.TestFeatureLenses | vscode/.vscode/extensions/ms-vscode.csharp-1.15.2/out/src/features/codeLensProvider.js:102-106 | a test method node gets a Run Test lens and then a Debug Test lens for its test feature's data and framework |
| CodeLensLegacy.ReferencesTitle | vscode/.vscode/extensions/ms-vscode.csharp-1.15.2/out/src/features/codeLensProvider.js:82 | "1 reference" for one usage, otherwise the count followed by " references" |
| Common.ExtensionPath.Get | vscode/.vscode/extensions/ms-vscode.csharp-1.16.2/out/src/common.js:24-29 | throws "Failed to set extension path" exactly when the stored path is falsy; otherwise returns that path |
| Common.ExtensionPath.Set | vscode/.vscode/extensions/ms-vscode.csharp-1.16.2/out/src/common.js:19-22 | the module-level path becomes the given value |
| Common.IsBoolean | vscode/.vscode/extensions/ms-vscode.csharp-1.16.2/out/src/common.js:31-33 | true exactly for the two boolean values |
| Common.ReduceShift | vscode/.vscode/extensions/ms-vscode.csharp-1.16.2/out/src/common.js:35-37 | reducing from a start value adds that value to the sum |
| Common.SumConcat | vscode/.vscode/extensions/ms-vscode.csharp-1.16.2/out/src/common.js:35-37 | the sum of an empty array is 0, and the sum of a concatenation is the sum of the sums |
| Common.SafeLength | vscode/.vscode/extensions/ms-vscode.csharp-1.16.2/out/src/common.js:40-42 | 0 for an undefined array, otherwise its number of elements (the sum of 1 per element) |
| Common.CountIsLength | vscode/.vscode/extensions/ms-vscode.csharp-1.16.2/out/src/common.js:35-42 | summing 1 per element gives the array's length |
| Common.ConvertNativePathToPosix | vscode/.vscode/extensions/ms-vscode.csharp-1.16.2/out/src/common.js:174-177 | with a one-character separator the result has the same length and differs only where the separator stood, which becomes `/` |
| Common.IsSubfolderOf | vscode/.vscode/extensions/ms-vscode.csharp-1.16.2/out/src/common.js:185-190 | true iff the components of the sub folder are a prefix of the components of the folder |
| Common.SubfolderOfExtension | vscode/.vscode/extensions/ms-vscode.csharp-1.16.2/out/src/common.js:185-190 | a path is a sub folder of itself and of any path that extends it by more components |
| Diagnostics.RecordedOne | vscode/.vscode/extensions/ms-vscode.csharp-1.17.1/out/src/features/diagnosticsProvider.js:37-39 | recording a single project sets its path to its file count and leaves every other key as it was |
| Diagnostics.Advisor.constructor | vscode/.vscode/extensions/ms-vscode.csharp-1.17.1/out/src/features/diagnosticsProvider.js:13-24 | a new advisor has a zero restore counter and no recorded counts |
| Diagnostics.Advisor.OnBeforePackageRestore | vscode/.vscode/extensions/ms-vscode.csharp-1.17.1/out/src/features/diagnosticsProvider.js:65-67 | the restore counter goes up by one; the file counts are unchanged |
| Diagnostics.Advisor.OnPackageRestore | vscode/.vscode/extensions/ms-vscode.csharp-1.17.1/out/src/features/diagnosticsProvider.js:68-70 | the restore counter goes down by one (it may go negative, as in the source); the file counts are unchanged |
| Diagnostics.Advisor.UpdateProjectFileCount | vscode/.vscode/extensions/ms-vscode.csharp-1.17.1/out/src/features/diagnosticsProvider.js:37-39 | the path maps to the new count; a new path is appended to the key order, an existing one keeps its place |
| Diagnostics.Advisor.AddOrUpdateProjectFileCount | vscode/.vscode/extensions/ms-vscode.csharp-1.17.1/out/src/features/diagnosticsProvider.js:40-47 | the DotNet and then the MsBuild project, each only when it has a SourceFiles list, have their counts recorded; the restore counter is unchanged |
| Diagnostics.Advisor.DeleteProjectFileCount | vscode/.vscode/extensions/ms-vscode.csharp-1.17.1/out/src/features/diagnosticsProvider.js:50 | the path's entry is removed from the counts; the key order becomes the old one without that path, the other keys in the order they had; nothing else changes |
| Diagnostics.Without | vscode/.vscode/extensions/ms-vscode.csharp-1.17.1/out/src/features/diagnosticsProvider.js:50 | the keys kept are exactly the old keys other than the path |
| Diagnostics.WithoutDistinct | vscode/.vscode/extensions/ms-vscode.csharp-1.17.1/out/src/features/diagnosticsProvider.js:50 | dropping a key from distinct keys leaves them distinct |
| Diagnostics.Advisor.RemoveProjectFileCount | vscode/.vscode/extensions/ms-vscode.csharp-1.17.1/out/src/features/diagnosticsProvider.js:48-55 | exactly the paths of the projects with a SourceFiles list are removed; no other key changes |
| Diagnostics.Advisor.IsHugeProject | vscode/.vscode/extensions/ms-vscode.csharp-1.17.1/out/src/features/diagnosticsProvider.js:77-86 | true iff the recorded counts add up to more than 1000 (the early return does not change the answer) |
| Diagnostics.Advisor.ShouldValidateFiles | vscode/.vscode/extensions/ms-vscode.csharp-1.17.1/out/src/features/diagnosticsProvider.js:28-31 | true iff the server is running and the restore counter is not positive |
| Diagnostics.Advisor.ShouldValidateProject | vscode/.vscode/extensions/ms-vscode.csharp-1.17.1/out/src/features/diagnosticsProvider.js:32-36 | true iff the files gate holds and the total file count is at most 1000 |
| Diagnostics.AsDiagnosticSeverity | vscode/.vscode/extensions/ms-vscode.csharp-1.17.1/out/src/features/diagnosticsProvider.js:259-269 | Error iff the lowercased level is "error", Warning iff it is "warning", Information for everything else |
| Diagnostics.AsProjectLabel | vscode/.vscode/extensions/ms-vscode.csharp-1.17.1/out/src/features/diagnosticsProvider.js:270-273 | the whole name when it has no '+', otherwise the text after its first '+' |
| Diagnostics.ShouldIgnoreDocument | vscode/.vscode/extensions/ms-vscode.csharp-1.17.1/out/src/features/diagnosticsProvider.js:125-134 | ignored iff the language is not csharp, or the scheme is not file and the document is not a virtual C# document |
| Diagnostics.ShouldValidateDocumentLegacy | vscode/.vscode/extensions/ms-vscode.csharp-1.15.2/out/src/features/diagnosticsProvider.js:121-126 | the 1.15.2 filter validates exactly csharp documents with the file scheme |
| Diagnostics.VirtualDocumentsAdded | vscode/.vscode/extensions/ms-vscode.csharp-1.15.2/out/src/features/diagnosticsProvider.js:121-126 | a virtual C# document outside the file scheme is skipped by 1.15.2 and validated by 1.17.1 |
| DockerDebug.ResolveWithoutPlaceholder | vscode/.vscode/extensions/peterjausovec.vscode-docker-0.4.0/out/debugging/coreclr/dockerDebugConfigurationProvider.js:32-34 | a path with no `$` is returned unchanged |
| DockerDebug.ResolveLeadingPlaceholder | vscode/.vscode/extensions/peterjausovec.vscode-docker-0.4.0/out/debugging/coreclr/dockerDebugConfigurationProvider.js:32-34 | a leading `${workspaceFolder}`, in any letter case, becomes the folder path and the rest is resolved in turn |
| DockerDebug.ResolveLeadingChar | vscode/.vscode/extensions/peterjausovec.vscode-docker-0.4.0/out/debugging/coreclr/dockerDebugConfigurationProvider.js:32-34 | a leading character other than `$` is kept as it is |
| DockerDebug.ResolveAfterPlain | vscode/.vscode/extensions/peterjausovec.vscode-docker-0.4.0/out/debugging/coreclr/dockerDebugConfigurationProvider.js:32-34 | a placeholder that follows a `$`-free prefix is replaced and the prefix is kept |
| DockerDebug.ResolveReplacesEveryPlaceholder | vscode/.vscode/extensions/peterjausovec.vscode-docker-0.4.0/out/debugging/coreclr/dockerDebugConfigurationProvider.js:32-34 | joining `$`-free texts by placeholders and resolving gives the same texts joined by the folder path: every occurrence is replaced |
| DockerDebug.InferAppFolder | vscode/.vscode/extensions/peterjausovec.vscode-docker-0.4.0/out/debugging/coreclr/dockerDebugConfigurationProvider.js:107-117 | the configured appFolder when non-empty, else the dirname of a non-empty appProject, else the workspace folder |
| DockerDebug.InferOs | vscode/.vscode/extensions/peterjausovec.vscode-docker-0.4.0/out/debugging/coreclr/dockerDebugConfigurationProvider.js:48-50 | the configured dockerRun.os when non-empty, otherwise "Linux" |
| DockerDebug.InferContext | vscode/.vscode/extensions/peterjausovec.vscode-docker-0.4.0/out/debugging/coreclr/dockerDebugConfigurationProvider.js:139-145 | the configured context when non-empty; else the application folder when it normalizes to the workspace folder; else its dirname |
| DockerDebug.InferBuildOptions | vscode/.vscode/extensions/peterjausovec.vscode-docker-0.4.0/out/debugging/coreclr/dockerDebugConfigurationProvider.js:64-88 | the context is the resolved inferred context; the Dockerfile defaults to `<appFolder>/Dockerfile`; the tag to the lowercased name plus ":dev"; the target to "base"; the labels to the created-by label; the args are copied (see also line 190) |
| DockerDebug.DefaultTagIsLowerCase | vscode/.vscode/extensions/peterjausovec.vscode-docker-0.4.0/out/debugging/coreclr/dockerDebugConfigurationProvider.js:74-76 | without a configured tag the tag is the application name with no upper-case ASCII letter, followed by ":dev" |
| DockerDebug.ResolveAll | vscode/.vscode/extensions/peterjausovec.vscode-docker-0.4.0/out/debugging/coreclr/dockerDebugConfigurationProvider.js:95 | each env file is resolved, one result per file, in order |
| DockerDebug.InferRunOptions | vscode/.vscode/extensions/peterjausovec.vscode-docker-0.4.0/out/debugging/coreclr/dockerDebugConfigurationProvider.js:89-106 | the container name defaults to `<appName>-dev`; env is copied; env files are present exactly when configured, each resolved; labels default to the created-by label; the OS is the one passed in |
| DockerDebug.CreateLaunchBrowserConfiguration | vscode/.vscode/extensions/peterjausovec.vscode-docker-0.4.0/out/debugging/coreclr/dockerDebugConfigurationProvider.js:146-165 | enabled exactly when a browser URL is given, which is then the argument, with `cmd.exe /C start <url>` on Windows, `open` on macOS and `xdg-open` on Linux |
| DockerDebug.CreateConfiguration | vscode/.vscode/extensions/peterjausovec.vscode-docker-0.4.0/out/debugging/coreclr/dockerDebugConfigurationProvider.js:166-188 | a coreclr launch configuration with the program arguments joined by spaces, the pipe transport copied with quoteArgs false, and /app/Views mapped to the Views folder |
| DockerDebug.ConfigurationArgsSplit | vscode/.vscode/extensions/peterjausovec.vscode-docker-0.4.0/out/debugging/coreclr/dockerDebugConfigurationProvider.js:173 | when no program argument holds a space, splitting the joined arguments on spaces gives them back |
| ExcepthookChain.RemoveFirst | sublime/Packages/SFTP/SFTP.py:274 | `list.remove`: a present value loses exactly one occurrence; an absent value leaves the list as it is (see also line 289) |
| ExcepthookChain.RemoveFirstAt | sublime/Packages/SFTP/SFTP.py:274 | `list.remove` takes out the element at the first position holding the value (see also line 289) |
| ExcepthookChain.Chain.constructor | sublime/Packages/SFTP/SFTP.py:263-264 | the class attributes start as an empty list and an empty dict |
| ExcepthookChain.Chain.Add | sublime/Packages/SFTP/SFTP.py:266-276 | `sys.excepthook` is appended once and re-adding it changes nothing; another name's old callback is removed and the new one inserted at the front; both record the name; a missing old callback is the ValueError; from a valid state, with a callback no other name holds, the chain stays valid |
| ExcepthookChain.Chain.Remove | sublime/Packages/SFTP/SFTP.py:283-289 | an unknown name changes nothing; otherwise the name is forgotten and its callback removed from the list; from a valid state the chain stays valid |
| ExcepthookChain.Chain.Hook | sublime/Packages/SFTP/SFTP.py:278-281 | every callback is called once, in list order, with the same exception |
| ExcepthookChain.DropDistinct | sublime/Packages/SFTP/SFTP.py:289 | taking one element out of a list without repeats leaves a list without repeats |
| ExcepthookChain.DropListed | sublime/Packages/SFTP/SFTP.py:287-289 | removing one name and its callback leaves every other name's callback listed and every listed callback named |
| ExcepthookChain.RemoveKeepsValid | sublime/Packages/SFTP/SFTP.py:283-289 | removing a registered name keeps the invariant: names injective, no repeated callback, list equal to the named callbacks, `sys.excepthook`'s callback last |
| ExcepthookChain.DropInjective | sublime/Packages/SFTP/SFTP.py:288 | a dict without one of its keys still maps distinct names to distinct callbacks |
| ExcepthookChain.DropSysLast | sublime/Packages/SFTP/SFTP.py:287-289 | removing a name other than `sys.excepthook` keeps its callback last |
| ExcepthookChain.AddSysKeepsValid | sublime/Packages/SFTP/SFTP.py:268-271 | appending an unregistered `sys.excepthook` callback keeps the invariant (see also line 276) |
| ExcepthookChain.ConsKeepsValid | sublime/Packages/SFTP/SFTP.py:275-276 | putting a fresh callback at the front for a new name keeps the invariant |
| ExcepthookChain.AddFrontKeepsValid | sublime/Packages/SFTP/SFTP.py:272-276 | re-registering or newly registering a name other than `sys.excepthook` with a callback no other name holds keeps the invariant, with `sys.excepthook` still last |
| JsonCleaner.LineBreakIsWhitespace | vscode/.vscode/extensions/ms-vscode.csharp-1.16.2/out/src/json.js:7-32 | every line-break character is also white space, and none is the byte-order mark |
| JsonCleaner.StringScan | vscode/.vscode/extensions/ms-vscode.csharp-1.16.2/out/src/json.js:60-80 | `scanString` advances at most one position past the end of the text (a trailing backslash) |
| JsonCleaner.LineCommentScan | vscode/.vscode/extensions/ms-vscode.csharp-1.16.2/out/src/json.js:101-107 | the comment text holds no line break and stops at the first one or at the end |
| JsonCleaner.BlockCommentScan | vscode/.vscode/extensions/ms-vscode.csharp-1.16.2/out/src/json.js:115-122 | the block comment never runs past the end of the text |
| JsonCleaner.NextNonWhite | vscode/.vscode/extensions/ms-vscode.csharp-1.16.2/out/src/json.js:51-59 | the character found is not white space, and nothing is found exactly when the rest is all white space |
| JsonCleaner.StringLength | vscode/.vscode/extensions/ms-vscode.csharp-1.16.2/out/src/json.js:60-80 | a string literal takes at least its quote and never more than the text (see also lines 91-93) |
| JsonCleaner.ScanString | vscode/.vscode/extensions/ms-vscode.csharp-1.16.2/out/src/json.js:60-80 | the loop stops where `StringScan` says |
| JsonCleaner.PeekPastWhitespace | vscode/.vscode/extensions/ms-vscode.csharp-1.16.2/out/src/json.js:51-59 | the do-while loop returns the first character that is not white space, or none at the end |
| JsonCleaner.SkipLineComment | vscode/.vscode/extensions/ms-vscode.csharp-1.16.2/out/src/json.js:101-107 | the loop stops where `LineCommentScan` says |
| JsonCleaner.SkipBlockComment | vscode/.vscode/extensions/ms-vscode.csharp-1.16.2/out/src/json.js:115-122 | the loop stops past the first star-slash, or at the end |
| JsonCleaner.SlashCase | vscode/.vscode/extensions/ms-vscode.csharp-1.16.2/out/src/json.js:95-125 | the slash case keeps the parts so far joined equal to what `Clean` keeps of the text scanned |
| JsonCleaner.CutComment | vscode/.vscode/extensions/ms-vscode.csharp-1.16.2/out/src/json.js:97-124 | the part before the slash is pushed and the comment skipped; a line comment stops at a line break or the end |
| JsonCleaner.Advance | vscode/.vscode/extensions/ms-vscode.csharp-1.16.2/out/src/json.js:81-135 | one turn of the loop keeps the parts equal to what `Clean` keeps of the text scanned, and moves forward |
| JsonCleaner.CommaCase | vscode/.vscode/extensions/ms-vscode.csharp-1.16.2/out/src/json.js:126-133 | a comma before `}` or `]` is cut out; any other is kept in the current part |
| JsonCleaner.CleanJsonText | vscode/.vscode/extensions/ms-vscode.csharp-1.16.2/out/src/json.js:33-142 | the parts joined are `Clean` of the text |
| JsonCleaner.CleanNoLonger | vscode/.vscode/extensions/ms-vscode.csharp-1.16.2/out/src/json.js:33-142 | the result is never longer than the text |
| JsonCleaner.CleanUnchanged | vscode/.vscode/extensions/ms-vscode.csharp-1.16.2/out/src/json.js:33-142 | the text comes back unchanged iff it has no byte-order mark, comment or trailing comma outside its string literals |
| JsonCleaner.OrdinaryPrefix | vscode/.vscode/extensions/ms-vscode.csharp-1.16.2/out/src/json.js:134 | characters that are not a mark, quote, slash or comma are copied |
| JsonCleaner.ByteOrderMarkRemoved | vscode/.vscode/extensions/ms-vscode.csharp-1.16.2/out/src/json.js:85-89 | a byte-order mark is dropped and nothing else |
| JsonCleaner.LineCommentRemoved | vscode/.vscode/extensions/ms-vscode.csharp-1.16.2/out/src/json.js:96-109 | a `//` comment is dropped up to the line break, which is kept |
| JsonCleaner.LineCommentLength | vscode/.vscode/extensions/ms-vscode.csharp-1.16.2/out/src/json.js:101-107 | the line-comment scan stops exactly at the first line break |
| JsonCleaner.BlockCommentLength | vscode/.vscode/extensions/ms-vscode.csharp-1.16.2/out/src/json.js:115-122 | a stretch with no star-slash is all consumed by the block-comment scan |
| JsonCleaner.BlockCommentRemoved | vscode/.vscode/extensions/ms-vscode.csharp-1.16.2/out/src/json.js:110-124 | a block comment is dropped together with its terminator |
| JsonCleaner.BlockCommentUnterminated | vscode/.vscode/extensions/ms-vscode.csharp-1.16.2/out/src/json.js:115-123 | an unterminated block comment is dropped to the end of the text |
| JsonCleaner.CleanAtWhite | vscode/.vscode/extensions/ms-vscode.csharp-1.16.2/out/src/json.js:51-59 | a space character (other than the mark) is kept and skipped by the look-ahead (see also line 134) |
| JsonCleaner.WhitespaceKept | vscode/.vscode/extensions/ms-vscode.csharp-1.16.2/out/src/json.js:51-59 | white space other than the byte-order mark is copied, and the look-ahead past it sees what follows (see also line 134) |
| JsonCleaner.TrailingCommaRemoved | vscode/.vscode/extensions/ms-vscode.csharp-1.16.2/out/src/json.js:126-133 | a comma followed by white space and `}` or `]` is dropped; the white space and the bracket are kept |
| JsonCleaner.CommaKept | vscode/.vscode/extensions/ms-vscode.csharp-1.16.2/out/src/json.js:126-133 | any other comma is kept |
| JsonCleaner.StringBodyScan | vscode/.vscode/extensions/ms-vscode.csharp-1.16.2/out/src/json.js:60-80 | the string scan consumes a well-formed literal body exactly |
| JsonCleaner.StringKept | vscode/.vscode/extensions/ms-vscode.csharp-1.16.2/out/src/json.js:60-80 | a quoted string is copied whole, with its slashes, commas and escaped quotes (see also lines 91-93) |
| JsonCleaner.StringEndsAtLineBreak | vscode/.vscode/extensions/ms-vscode.csharp-1.16.2/out/src/json.js:75-78 | an unescaped line break ends an unterminated string, and the line break is kept |
| JsonContributions.GetCurrentWord | vscode/.vscode/extensions/ms-vscode.csharp-1.16.2/out/src/features/json/jsonContributions.js:126-133 | the word is the longest run of characters other than ` \t\n\r\v":{[,` ending at the cursor; empty when the cursor is at or before the start, or past the end of the line |
| JsonContributions.OverwriteRange | vscode/.vscode/extensions/ms-vscode.csharp-1.16.2/out/src/features/json/jsonContributions.js:76-83 | the node's range when the node covers the offset and is a property, string, number, boolean or null; otherwise the current word's span ending at the offset |
| JsonContributions.HoverRange | vscode/.vscode/extensions/ms-vscode.csharp-1.16.2/out/src/features/json/jsonContributions.js:36-54 | a hover exists iff a node covers the offset and the contribution has information; its range is the node's |
| JsonContributions.Labels | vscode/.vscode/extensions/ms-vscode.csharp-1.16.2/out/src/features/json/jsonContributions.js:84-94 | the labels of a list of suggestions, exactly |
| JsonContributions.CollectSuggestions | vscode/.vscode/extensions/ms-vscode.csharp-1.16.2/out/src/features/json/jsonContributions.js:84-98 | the collector keeps the suggestions the as-written `proposed` lookup lets through, in order, each with a replace edit over the overwrite range |
| JsonContributions.KeptLabels | vscode/.vscode/extensions/ms-vscode.csharp-1.16.2/out/src/features/json/jsonContributions.js:84-94 | with a plain label set, every label offered is kept, and no other |
| JsonContributions.KeptDistinct | vscode/.vscode/extensions/ms-vscode.csharp-1.16.2/out/src/features/json/jsonContributions.js:84-94 | the kept suggestions come from the input and have distinct labels |
| JsonContributions.KeptIsFirst | vscode/.vscode/extensions/ms-vscode.csharp-1.16.2/out/src/features/json/jsonContributions.js:84-94 | the first suggestion with a given label is the one kept |
| JsonContributions.KeptAsWrittenAgrees | vscode/.vscode/extensions/ms-vscode.csharp-1.16.2/out/src/features/json/jsonContributions.js:84-94 | for labels that are not names of `Object.prototype`, the as-written collector keeps exactly the first suggestion per label |
| JsonContributions.PrototypeLabelDropped | vscode/.vscode/extensions/ms-vscode.csharp-1.16.2/out/src/features/json/jsonContributions.js:87 | a suggestion labelled `constructor` is dropped by the as-written lookup, though no suggestion with that label came before |
| JsonContributions.CompletionResult | vscode/.vscode/extensions/ms-vscode.csharp-1.16.2/out/src/features/json/jsonContributions.js:116-124 | a completion list exists iff collection ran and some item was collected; it holds the items and the incomplete flag |
| Launcher.ScanFlagsMeaning | vscode/.vscode/extensions/ms-vscode.csharp-1.17.1/out/src/omnisharp/launcher.js:74-115 | after the visit each flag says whether some file of the folder is of its kind; the solution flag needs a .csproj in the folder; the root flag says a project.json sits in the folder itself |
| Launcher.VisitResource | vscode/.vscode/extensions/ms-vscode.csharp-1.17.1/out/src/omnisharp/launcher.js:78-115 | one file pushes a solution target (when the folder has a .csproj) and a project.json target at its directory, and updates the flags |
| Launcher.VisitResources | vscode/.vscode/extensions/ms-vscode.csharp-1.17.1/out/src/omnisharp/launcher.js:78-115 | the forEach over a folder's files pushes the per-file targets in order and leaves the flags of the whole folder |
| Launcher.AddExtraTargets | vscode/.vscode/extensions/ms-vscode.csharp-1.17.1/out/src/omnisharp/launcher.js:116-156 | after the visit: the folder target, then CSX, then Cake, then the loose-.cs folder target, each under its rule |
| Launcher.CollectFolderTargets | vscode/.vscode/extensions/ms-vscode.csharp-1.17.1/out/src/omnisharp/launcher.js:73-157 | the per-folder step yields the file targets followed by the extra targets |
| Launcher.PerResourceCount | vscode/.vscode/extensions/ms-vscode.csharp-1.17.1/out/src/omnisharp/launcher.js:80-102 | one file gives one solution target exactly when it is a solution and the folder has a project, one project.json target exactly when it is a project.json |
| Launcher.ResourceTargetKinds | vscode/.vscode/extensions/ms-vscode.csharp-1.17.1/out/src/omnisharp/launcher.js:78-115 | the visit yields one solution target per solution file (only when the folder has a .csproj), one per project.json, and no folder, CSX or Cake target |
| Launcher.ExtraTargetCounts | vscode/.vscode/extensions/ms-vscode.csharp-1.17.1/out/src/omnisharp/launcher.js:116-156 | the additions hold one folder target iff the folder rule or the loose-.cs rule holds, one CSX target iff a .csx exists, one Cake target iff a .cake exists |
| Launcher.ExtraTargetCount | vscode/.vscode/extensions/ms-vscode.csharp-1.17.1/out/src/omnisharp/launcher.js:116-156 | the number of extra targets of each kind, rule by rule |
| Launcher.FolderTargetCounts | vscode/.vscode/extensions/ms-vscode.csharp-1.17.1/out/src/omnisharp/launcher.js:73-157 | per folder: solution targets only alongside a .csproj, one target per project.json, a folder target iff (csproj and no sln) or (project.json and none at the root) or (loose .cs in 1.17.1 and 1.16.2 with no sln, csproj or project.json), at most one CSX and one Cake target |
| Launcher.AtRootIsProjectJson | vscode/.vscode/extensions/ms-vscode.csharp-1.17.1/out/src/omnisharp/launcher.js:91-94 | a project.json at the root is a project.json |
| Launcher.ProjectJsonGivesTarget | vscode/.vscode/extensions/ms-vscode.csharp-1.17.1/out/src/omnisharp/launcher.js:91-102 | every project.json file gives a target at its own directory |
| Launcher.FolderOrder | vscode/.vscode/extensions/ms-vscode.csharp-1.17.1/out/src/omnisharp/launcher.js:57-71 | the folders holding some file, each once, in first-seen order |
| Launcher.Bucket | vscode/.vscode/extensions/ms-vscode.csharp-1.17.1/out/src/omnisharp/launcher.js:57-71 | a non-empty bucket belongs to a folder that holds some file |
| Launcher.OrderInRange | vscode/.vscode/extensions/ms-vscode.csharp-1.17.1/out/src/omnisharp/launcher.js:57-71 | every folder index of the order names a workspace folder (see also line 76) |
| Launcher.BucketByFolder | vscode/.vscode/extensions/ms-vscode.csharp-1.17.1/out/src/omnisharp/launcher.js:57-71 | the loop builds the keys in first-seen order and each folder's files in input order; files without a folder are dropped |
| Launcher.OrderStep | vscode/.vscode/extensions/ms-vscode.csharp-1.17.1/out/src/omnisharp/launcher.js:62-68 | one more file adds its folder to the order only when it is new |
| Launcher.BucketsGrow | vscode/.vscode/extensions/ms-vscode.csharp-1.17.1/out/src/omnisharp/launcher.js:58-71 | one pass of the bucket loop keeps the order and every bucket correct |
| Launcher.BucketOneMore | vscode/.vscode/extensions/ms-vscode.csharp-1.17.1/out/src/omnisharp/launcher.js:69 | one more file joins only the bucket of its own folder |
| Launcher.ConcatFolderTargets | vscode/.vscode/extensions/ms-vscode.csharp-1.17.1/out/src/omnisharp/launcher.js:72-157 | the forEach over the map concatenates the folders' targets in key order |
| Launcher.ResourcesToLaunchTargets | vscode/.vscode/extensions/ms-vscode.csharp-1.17.1/out/src/omnisharp/launcher.js:43-159 | the targets are the sorted concatenation of the per-folder targets; a non-array input gives none; 1.15.2 is the case without loose .cs targets |
| Launcher.FileOutsideFoldersIgnored | vscode/.vscode/extensions/ms-vscode.csharp-1.17.1/out/src/omnisharp/launcher.js:59-60 | a file outside every workspace folder does not change the targets |
| Launcher.AllTargetsSameBuckets | vscode/.vscode/extensions/ms-vscode.csharp-1.17.1/out/src/omnisharp/launcher.js:59-70 | a file without a folder leaves every folder's targets as they were |
| Launcher.Insert | vscode/.vscode/extensions/ms-vscode.csharp-1.17.1/out/src/omnisharp/launcher.js:158 | inserting into a sorted list keeps it sorted and adds exactly that target |
| Launcher.InsertKeepsTies | vscode/.vscode/extensions/ms-vscode.csharp-1.17.1/out/src/omnisharp/launcher.js:158 | the inserted target goes after every target of the list with the same directory |
| Launcher.NoneWithDirectory | vscode/.vscode/extensions/ms-vscode.csharp-1.17.1/out/src/omnisharp/launcher.js:158 | in a sorted list whose first directory sorts after `d`, no target has directory `d` |
| Launcher.WithDirectoryAppend | vscode/.vscode/extensions/ms-vscode.csharp-1.17.1/out/src/omnisharp/launcher.js:158 | the targets of a directory in a concatenation are those of each part, in order |
| Launcher.SortedTail | vscode/.vscode/extensions/ms-vscode.csharp-1.17.1/out/src/omnisharp/launcher.js:158 | the tail of a sorted list is sorted |
| Launcher.SortedCons | vscode/.vscode/extensions/ms-vscode.csharp-1.17.1/out/src/omnisharp/launcher.js:158 | a target no greater than the head of a sorted list can go in front of it |
| Launcher.SortByDirectory | vscode/.vscode/extensions/ms-vscode.csharp-1.17.1/out/src/omnisharp/launcher.js:158 | the result is ordered by directory, is a permutation of the targets, and is stable: for every directory the targets with that directory come in the order they had |
| Launcher.TiesKeepOrder | vscode/.vscode/extensions/ms-vscode.csharp-1.17.1/out/src/omnisharp/launcher.js:158 | two targets of the same directory keep their relative order after sorting, alone or after any other targets |
| Launcher.GetConfigurationValue | vscode/.vscode/extensions/ms-vscode.csharp-1.17.1/out/src/omnisharp/launcher.js:220-225 | a [csharp] value that is neither null nor undefined wins; otherwise the global value with the default |
| Launcher.FormattingArgs | vscode/.vscode/extensions/ms-vscode.csharp-1.17.1/out/src/omnisharp/launcher.js:199-205 | three arguments: useTabs is the negation of insertSpaces (default true), tabSize and indentationSize are editor.tabSize (default 4) |
| Launcher.DefaultFormatting | vscode/.vscode/extensions/ms-vscode.csharp-1.17.1/out/src/omnisharp/launcher.js:202-204 | with nothing configured the arguments say useTabs=false, tabSize=4, indentationSize=4 |
| Launcher.LaunchArgs | vscode/.vscode/extensions/ms-vscode.csharp-1.17.1/out/src/omnisharp/launcher.js:199-205 | the three formatting arguments are appended after the given ones exactly when editor formatting is on |
| Launcher.EscapeIfNeeded | vscode/.vscode/extensions/ms-vscode.csharp-1.17.1/out/src/omnisharp/launcher.js:227-232 | an argument matching `^[^"].* .*[^"]` is wrapped in quotes; any other has its first `&` escaped as `^&` |
| Launcher.MapEscape | vscode/.vscode/extensions/ms-vscode.csharp-1.17.1/out/src/omnisharp/launcher.js:238 | each argument is escaped, one result per argument, in order |
| Launcher.WindowsCommandLine | vscode/.vscode/extensions/ms-vscode.csharp-1.17.1/out/src/omnisharp/launcher.js:233-239 | the single cmd argument starts with `/s /c "` and ends with `"` |
| Launcher.WindowsCommandLinePlain | vscode/.vscode/extensions/ms-vscode.csharp-1.17.1/out/src/omnisharp/launcher.js:227-239 | for a launch path and arguments without spaces or `&`, the cmd argument is `/s /c "` followed by them joined with spaces and a closing `"` |
| Launcher.MapEscapePlain | vscode/.vscode/extensions/ms-vscode.csharp-1.17.1/out/src/omnisharp/launcher.js:227-232 | escaping leaves a list of arguments without spaces or `&` unchanged |
| Launcher.WindowsCommandLineQuotes | vscode/.vscode/extensions/ms-vscode.csharp-1.17.1/out/src/omnisharp/launcher.js:227-239 | an argument with a space at index 1 and no quote at its start is wrapped in double quotes inside the cmd argument |
| Launcher.PlainArgumentUnescaped | vscode/.vscode/extensions/ms-vscode.csharp-1.17.1/out/src/omnisharp/launcher.js:227-232 | an argument with no space and no `&` is not escaped |
| Launcher.MonoLaunchPathOrDefault | vscode/.vscode/extensions/ms-vscode.csharp-1.17.1/out/src/omnisharp/launcher.js:211 | the mono launch path when it is non-empty, otherwise the launch path |
| Launcher.MonoArgs | vscode/.vscode/extensions/ms-vscode.csharp-1.17.1/out/src/omnisharp/launcher.js:260-267 | with the debugger, the agent pair first; then `--assembly-loader=strict`, the launch path, and the arguments unchanged |
| Launcher.MonoArgsLegacy | vscode/.vscode/extensions/ms-vscode.csharp-1.16.2/out/src/omnisharp/launcher.js:274-282 | with the debugger, the agent pair and a second strict loader first; then the strict loader, the launch path and the arguments unchanged |
| Launcher.MonoArgsOldest | vscode/.vscode/extensions/ms-vscode.csharp-1.15.2/out/src/omnisharp/launcher.js:255-259 | the strict loader, the launch path, then the arguments unchanged |
| Launcher.StrictLoaderCount | vscode/.vscode/extensions/ms-vscode.csharp-1.16.2/out/src/omnisharp/launcher.js:277-279 | the strict loader appears twice with the debugger in 1.16.2 and once otherwise; once in 1.17.1 |
| Launcher.Launch | vscode/.vscode/extensions/ms-vscode.csharp-1.17.1/out/src/omnisharp/launcher.js:197-219 | Windows uses cmd; a resolved global mono runs mono on the mono launch path (or the plain one); otherwise the launch path is run directly |
| Launcher.LegacyDecision | vscode/.vscode/extensions/ms-vscode.csharp-1.16.2/out/src/omnisharp/launcher.js:207-231 | Windows: cmd; "always": mono on the mono launch path or the plain one when mono is valid, otherwise an error; "auto": mono only when valid and a mono launch path exists; otherwise direct |
| Launcher.MonoUsedIff | vscode/.vscode/extensions/ms-vscode.csharp-1.16.2/out/src/omnisharp/launcher.js:218-231 | outside Windows mono is used iff it is valid and asked for, or allowed with a mono launch path; the error happens iff "always" meets an invalid mono; "never" always launches directly |
| Launcher.LaunchLegacy | vscode/.vscode/extensions/ms-vscode.csharp-1.16.2/out/src/omnisharp/launcher.js:198-233 | the 1.16.2 launch follows the decision: the error, cmd, mono with the 1.16.2 arguments, or the direct launch |
| Launcher.LaunchOldest | vscode/.vscode/extensions/ms-vscode.csharp-1.15.2/out/src/omnisharp/launcher.js:184-213 | the 1.15.2 launch follows the same decision with the older mono arguments, and agrees with 1.16.2 otherwise |
| Launcher.LaunchTargets | vscode/.vscode/extensions/ms-vscode.csharp-1.17.1/out/src/omnisharp/launcher.js:43-159 | no targets for a non-array input; otherwise the targets come out sorted by directory |
| Launcher.IsCSharpProject | vscode/.vscode/extensions/ms-vscode.csharp-1.17.1/out/src/omnisharp/launcher.js:160-162 | a `.csproj` path is neither a solution nor a `.cs` file |
| Launcher.IsSolution | vscode/.vscode/extensions/ms-vscode.csharp-1.17.1/out/src/omnisharp/launcher.js:163-165 | a `.sln` path is not a `.cs`, `.csx` or `.cake` file |
| Launcher.IsProjectJson | vscode/.vscode/extensions/ms-vscode.csharp-1.17.1/out/src/omnisharp/launcher.js:166-168 | a path matching `project.json` is not a project, a solution or a `.cs` file |
| Options.ReadPathOption | vscode/.vscode/extensions/ms-vscode.csharp-1.17.1/out/src/omnisharp/options.js:66-79 | `omnisharp.path` when present, else the legacy `csharp.omnisharp` when present, else null |
| Options.ToUseGlobalMonoValue | vscode/.vscode/extensions/ms-vscode.csharp-1.17.1/out/src/omnisharp/options.js:81-84 | "always" for a truthy legacy value and "auto" otherwise, and nothing else |
| Options.ReadUseGlobalMonoOption | vscode/.vscode/extensions/ms-vscode.csharp-1.17.1/out/src/omnisharp/options.js:80-101 | `omnisharp.useGlobalMono`, else the legacy `omnisharp.useMono`, else `csharp.omnisharpUsesMono` (both mapped to always/auto), else "auto" |
| Options.NormalizeLoggingLevel | vscode/.vscode/extensions/ms-vscode.csharp-1.17.1/out/src/omnisharp/options.js:45-48 | a string that lower-cases to "verbose" becomes "debug"; other strings and falsy values are kept; a truthy non-string throws (it has no `toLowerCase`) |
| Options.RazorFlag | vscode/.vscode/extensions/ms-vscode.csharp-1.17.1/out/src/omnisharp/options.js:61-62 | false without a razor section or key, otherwise the configured value |
| Options.Read | vscode/.vscode/extensions/ms-vscode.csharp-1.17.1/out/src/omnisharp/options.js:30-65 | fails exactly when the logging level throws; path and mono options come from their readers; `monoPath` is truthy or undefined; without a razor section the razor options are off/undefined |
| Options.ReadDefaults | vscode/.vscode/extensions/ms-vscode.csharp-1.17.1/out/src/omnisharp/options.js:43-63 | with no settings every option takes its documented default (information, autoStart true, timeout 60, 250 results, 1000 symbols, ...) |
| Options.VerboseIsDebug | vscode/.vscode/extensions/ms-vscode.csharp-1.17.1/out/src/omnisharp/options.js:45-48 | a configured "verbose" logging level, in any ASCII case, is read as "debug" |
| Options.EmptyMonoPathIsUndefined | vscode/.vscode/extensions/ms-vscode.csharp-1.17.1/out/src/omnisharp/options.js:42 | an empty `monoPath` is read as undefined |
| Options.ReadLegacy | vscode/.vscode/extensions/ms-vscode.csharp-1.16.2/out/src/omnisharp/options.js:25-54 | the 1.16.2 reader: same failure condition and same path, mono and monoPath rules |
| Options.LegacyAgrees | vscode/.vscode/extensions/ms-vscode.csharp-1.16.2/out/src/omnisharp/options.js:25-54 | the 1.16.2 reader fails exactly when the 1.17.1 reader does and agrees with it on every option both versions have |
| Options.Get | vscode/.vscode/extensions/ms-vscode.csharp-1.17.1/out/src/omnisharp/options.js:42-63 | `config.get(key, default)` gives the configured value when the key is set and the default otherwise |
| OptionsSchema.FindSpec | vscode/.vscode/extensions/ms-vscode.csharp-1.15.2/out/src/tools/GenerateOptionsSchema.js:14 | `hasOwnProperty` finds a key exactly when the object has it, at the position where it is read |
| OptionsSchema.PutKeys | vscode/.vscode/extensions/ms-vscode.csharp-1.15.2/out/src/tools/GenerateOptionsSchema.js:15 | assigning a key appends it when missing and otherwise keeps the keys and their order (see also line 19) |
| OptionsSchema.PutLookup | vscode/.vscode/extensions/ms-vscode.csharp-1.15.2/out/src/tools/GenerateOptionsSchema.js:15 | after an assignment the key reads the new value and every other key is as before (see also line 19) |
| OptionsSchema.RemoveKeys | vscode/.vscode/extensions/ms-vscode.csharp-1.15.2/out/src/tools/GenerateOptionsSchema.js:63 | after `delete` the key is gone and every other key is kept in order |
| OptionsSchema.RemoveLookup | vscode/.vscode/extensions/ms-vscode.csharp-1.15.2/out/src/tools/GenerateOptionsSchema.js:63 | after `delete` every other key reads as before |
| OptionsSchema.Appended | vscode/.vscode/extensions/ms-vscode.csharp-1.15.2/out/src/tools/GenerateOptionsSchema.js:9-24 | a non-object target is returned unchanged; `null` throws exactly when the reference has keys to visit; an object stays an object and an array an array |
| OptionsSchema.EntriesErrorSticks | vscode/.vscode/extensions/ms-vscode.csharp-1.15.2/out/src/tools/GenerateOptionsSchema.js:12-21 | the first error ends the loop |
| OptionsSchema.ItemsErrorSticks | vscode/.vscode/extensions/ms-vscode.csharp-1.15.2/out/src/tools/GenerateOptionsSchema.js:12-21 | the first error ends the loop over an array reference |
| OptionsSchema.EntriesLookup | vscode/.vscode/extensions/ms-vscode.csharp-1.15.2/out/src/tools/GenerateOptionsSchema.js:12-21 | after the first keys of the reference: a key is present when the object or one of those keys has it; a key the object lacks is copied; a shared key holds the recursive append; the rest is unchanged |
| OptionsSchema.EntriesError | vscode/.vscode/extensions/ms-vscode.csharp-1.15.2/out/src/tools/GenerateOptionsSchema.js:12-21 | the loop fails exactly when some shared key's recursive append fails |
| OptionsSchema.ItemsAt | vscode/.vscode/extensions/ms-vscode.csharp-1.15.2/out/src/tools/GenerateOptionsSchema.js:12-21 | over an array reference: shared indices hold the recursive append, later indices of the target are kept, extra reference indices are copied |
| OptionsSchema.ItemsError | vscode/.vscode/extensions/ms-vscode.csharp-1.15.2/out/src/tools/GenerateOptionsSchema.js:12-21 | the array loop fails exactly when some shared index's recursive append fails |
| OptionsSchema.AppendFieldsToObject | vscode/.vscode/extensions/ms-vscode.csharp-1.15.2/out/src/tools/GenerateOptionsSchema.js:9-24 | the method returns what `Appended` specifies |
| OptionsSchema.AppendToFields | vscode/.vscode/extensions/ms-vscode.csharp-1.15.2/out/src/tools/GenerateOptionsSchema.js:12-21 | the for..in loop over an object reference computes the fields `Appended` specifies |
| OptionsSchema.AppendToItems | vscode/.vscode/extensions/ms-vscode.csharp-1.15.2/out/src/tools/GenerateOptionsSchema.js:12-21 | the for..in loop over an array reference computes the items `Appended` specifies |
| OptionsSchema.AppendedObject | vscode/.vscode/extensions/ms-vscode.csharp-1.15.2/out/src/tools/GenerateOptionsSchema.js:9-24 | appending an object to an object fails iff a shared key's append fails; otherwise the keys are the union, the object's own leaves are kept, missing keys are copied, shared keys recurse |
| OptionsSchema.Entries | vscode/.vscode/extensions/ms-vscode.csharp-1.15.2/out/src/tools/GenerateOptionsSchema.js:28 | the keys for..in visits: an object's own fields, none for primitives (see also line 31) |
| OptionsSchema.PutAllKeys | vscode/.vscode/extensions/ms-vscode.csharp-1.15.2/out/src/tools/GenerateOptionsSchema.js:28-33 | copying entries gives the keys of the target and of the entries |
| OptionsSchema.PutAllLookup | vscode/.vscode/extensions/ms-vscode.csharp-1.15.2/out/src/tools/GenerateOptionsSchema.js:28-33 | a copied key reads as in the entries; any other as in the target |
| OptionsSchema.MergedDefaultsLookup | vscode/.vscode/extensions/ms-vscode.csharp-1.15.2/out/src/tools/GenerateOptionsSchema.js:26-35 | the new object holds the union of the keys and the parent's value wins where both have a key |
| OptionsSchema.MergeDefaults | vscode/.vscode/extensions/ms-vscode.csharp-1.15.2/out/src/tools/GenerateOptionsSchema.js:26-35 | the method builds a fresh object equal to `MergedDefaults`; the inputs are values and are not changed |
| OptionsSchema.HasKey | vscode/.vscode/extensions/ms-vscode.csharp-1.15.2/out/src/tools/GenerateOptionsSchema.js:42 | `key in defaults` is true for an own key and false when the key is neither own nor an `Object.prototype` name; a primitive throws |
| OptionsSchema.SetProperty | vscode/.vscode/extensions/ms-vscode.csharp-1.15.2/out/src/tools/GenerateOptionsSchema.js:43 | assigning a property of an object sets it; assigning one of a primitive throws in strict mode |
| OptionsSchema.Updated | vscode/.vscode/extensions/ms-vscode.csharp-1.15.2/out/src/tools/GenerateOptionsSchema.js:36-48 | null or undefined defaults change nothing; a primitive with no keys is unchanged; an object stays an object |
| OptionsSchema.UpdatesErrorSticks | vscode/.vscode/extensions/ms-vscode.csharp-1.15.2/out/src/tools/GenerateOptionsSchema.js:38-45 | the first error ends the loop |
| OptionsSchema.UpdatesAt | vscode/.vscode/extensions/ms-vscode.csharp-1.15.2/out/src/tools/GenerateOptionsSchema.js:38-45 | after the first keys each visited entry holds its update in its place and the others are unchanged |
| OptionsSchema.UpdatesError | vscode/.vscode/extensions/ms-vscode.csharp-1.15.2/out/src/tools/GenerateOptionsSchema.js:38-45 | the loop fails exactly when some entry's update fails |
| OptionsSchema.UpdatedObject | vscode/.vscode/extensions/ms-vscode.csharp-1.15.2/out/src/tools/GenerateOptionsSchema.js:36-48 | with defaults present every key is visited, keys and order are kept, and the result fails iff one entry's update fails |
| OptionsSchema.NullEntryThrows | vscode/.vscode/extensions/ms-vscode.csharp-1.15.2/out/src/tools/GenerateOptionsSchema.js:39 | a null or undefined entry throws when its hasOwnProperty is read |
| OptionsSchema.PlainEntryDefault | vscode/.vscode/extensions/ms-vscode.csharp-1.15.2/out/src/tools/GenerateOptionsSchema.js:42-44 | a non-schema entry whose key the defaults have gets that value as its `default` and keeps every other property; one whose key they lack is unchanged |
| OptionsSchema.SchemaEntryDefault | vscode/.vscode/extensions/ms-vscode.csharp-1.15.2/out/src/tools/GenerateOptionsSchema.js:39-41 | an object schema entry keeps every property but `properties`, which holds its children updated with the defaults merged over the entry's own `default` |
| OptionsSchema.UpdateDefaults | vscode/.vscode/extensions/ms-vscode.csharp-1.15.2/out/src/tools/GenerateOptionsSchema.js:36-48 | the method returns what `Updated` specifies |
| OptionsSchema.UpdateFields | vscode/.vscode/extensions/ms-vscode.csharp-1.15.2/out/src/tools/GenerateOptionsSchema.js:38-45 | the for..in loop computes the fields `Updated` specifies |
| OptionsSchema.UpdateEntry | vscode/.vscode/extensions/ms-vscode.csharp-1.15.2/out/src/tools/GenerateOptionsSchema.js:39-44 | the loop body computes one entry's update as specified |
| OptionsSchema.JsonCopy | vscode/.vscode/extensions/ms-vscode.csharp-1.15.2/out/src/tools/GenerateOptionsSchema.js:60 | `JSON.parse(JSON.stringify(v))` fails exactly for `undefined` |
| OptionsSchema.CopyJson | vscode/.vscode/extensions/ms-vscode.csharp-1.15.2/out/src/tools/GenerateOptionsSchema.js:60 | a JSON value survives the deep copy unchanged |
| OptionsSchema.CopyIsJson | vscode/.vscode/extensions/ms-vscode.csharp-1.15.2/out/src/tools/GenerateOptionsSchema.js:60 | the copy of anything but `undefined` is a JSON value |
| OptionsSchema.CopyKeys | vscode/.vscode/extensions/ms-vscode.csharp-1.15.2/out/src/tools/GenerateOptionsSchema.js:60 | the copy is an object iff the original is, and has no key the original lacks |
| OptionsSchema.JsonCopyIdempotent | vscode/.vscode/extensions/ms-vscode.csharp-1.15.2/out/src/tools/GenerateOptionsSchema.js:60 | copying twice gives what copying once does |
| OptionsSchema.RefNameOfPath | vscode/.vscode/extensions/ms-vscode.csharp-1.15.2/out/src/tools/GenerateOptionsSchema.js:53-55 | a reference written as a path names its last `/` segment |
| OptionsSchema.Replaced | vscode/.vscode/extensions/ms-vscode.csharp-1.15.2/out/src/tools/GenerateOptionsSchema.js:49-72 | a primitive with no keys is returned unchanged together with the definitions |
| OptionsSchema.ResolvedRef | vscode/.vscode/extensions/ms-vscode.csharp-1.15.2/out/src/tools/GenerateOptionsSchema.js:51-64 | an entry without `$ref` is unchanged; a resolved one is an object |
| OptionsSchema.ReplacedProperties | vscode/.vscode/extensions/ms-vscode.csharp-1.15.2/out/src/tools/GenerateOptionsSchema.js:66-69 | an object schema entry stays an object after its properties are resolved and updated |
| OptionsSchema.ReplaceErrorSticks | vscode/.vscode/extensions/ms-vscode.csharp-1.15.2/out/src/tools/GenerateOptionsSchema.js:50-70 | the first error ends the loop |
| OptionsSchema.ReplacedEntryNoRef | vscode/.vscode/extensions/ms-vscode.csharp-1.15.2/out/src/tools/GenerateOptionsSchema.js:63 | a resolved entry never keeps a `$ref` |
| OptionsSchema.ReplaceAt | vscode/.vscode/extensions/ms-vscode.csharp-1.15.2/out/src/tools/GenerateOptionsSchema.js:50-70 | after the first keys every entry keeps its key and place, the visited ones have no `$ref`, the others are unchanged |
| OptionsSchema.ReplacedNoRefs | vscode/.vscode/extensions/ms-vscode.csharp-1.15.2/out/src/tools/GenerateOptionsSchema.js:49-72 | resolving an object keeps its keys in place and leaves no entry with a `$ref` |
| OptionsSchema.ResolvedRefFields | vscode/.vscode/extensions/ms-vscode.csharp-1.15.2/out/src/tools/GenerateOptionsSchema.js:51-64 | the named definition is resolved and stored back, every other own key of the entry is kept, and keys the definition does not bring keep the entry's own values |
| OptionsSchema.ReplaceReferences | vscode/.vscode/extensions/ms-vscode.csharp-1.15.2/out/src/tools/GenerateOptionsSchema.js:49-72 | the method returns what `Replaced` specifies |
| OptionsSchema.ReplaceFields | vscode/.vscode/extensions/ms-vscode.csharp-1.15.2/out/src/tools/GenerateOptionsSchema.js:50-70 | the for..in loop computes what `Replaced` specifies |
| OptionsSchema.ReplaceEntry | vscode/.vscode/extensions/ms-vscode.csharp-1.15.2/out/src/tools/GenerateOptionsSchema.js:51-69 | the loop body for one key computes the entry's resolution |
| OptionsSchema.ResolveRef | vscode/.vscode/extensions/ms-vscode.csharp-1.15.2/out/src/tools/GenerateOptionsSchema.js:51-64 | the `$ref` step computes `ResolvedRef` |
| OptionsSchema.ReplaceProperties | vscode/.vscode/extensions/ms-vscode.csharp-1.15.2/out/src/tools/GenerateOptionsSchema.js:66-69 | the properties step computes `ReplacedProperties` |
| OptionsSchema.MergeContents | vscode/.vscode/extensions/ms-vscode.csharp-1.15.2/out/src/tools/GenerateOptionsSchema.js:74-79 | after the first additional definitions, if none failed, the base holds both key sets and each additional key reads its new definition |
| OptionsSchema.DefinedBeforeMerge | vscode/.vscode/extensions/ms-vscode.csharp-1.15.2/out/src/tools/GenerateOptionsSchema.js:75 | a key not merged yet is defined in the merged base exactly when in the original one |
| OptionsSchema.MergeSucceeds | vscode/.vscode/extensions/ms-vscode.csharp-1.15.2/out/src/tools/GenerateOptionsSchema.js:74-79 | the merge succeeds exactly when the base defines none of the additional keys |
| OptionsSchema.MergeFailure | vscode/.vscode/extensions/ms-vscode.csharp-1.15.2/out/src/tools/GenerateOptionsSchema.js:75-77 | a failed merge throws the message naming the first additional key the base already defines |
| OptionsSchema.MergedReferencesSpec | vscode/.vscode/extensions/ms-vscode.csharp-1.15.2/out/src/tools/GenerateOptionsSchema.js:73-80 | `mergeReferences` succeeds iff no additional key is already defined, and then the base holds every additional definition and keeps every other key |
| OptionsSchema.InheritedNameReported | vscode/.vscode/extensions/ms-vscode.csharp-1.15.2/out/src/tools/GenerateOptionsSchema.js:75 | as written, an additional definition named `constructor` is reported as defined twice against an empty base |
| OptionsSchema.InheritedNameAccepted | vscode/.vscode/extensions/ms-vscode.csharp-1.15.2/out/src/tools/GenerateOptionsSchema.js:75 | testing own definitions accepts it |
| OptionsSchema.MergeTestsAgree | vscode/.vscode/extensions/ms-vscode.csharp-1.15.2/out/src/tools/GenerateOptionsSchema.js:75 | both tests agree when no additional key is an inherited name the base lacks |
| OptionsSchema.MergeReferences | vscode/.vscode/extensions/ms-vscode.csharp-1.15.2/out/src/tools/GenerateOptionsSchema.js:73-80 | the method computes `MergedReferences` |
| OptionsSchema.MergeErrorSticks | vscode/.vscode/extensions/ms-vscode.csharp-1.15.2/out/src/tools/GenerateOptionsSchema.js:74-79 | the first error ends the loop |
| OptionsSchema.LookupFind | vscode/.vscode/extensions/ms-vscode.csharp-1.15.2/out/src/tools/GenerateOptionsSchema.js:14-15 | `obj[key]` reads the value at the own position of the key, and `undefined` when the key is missing |
| OptionsSchema.PutLength | vscode/.vscode/extensions/ms-vscode.csharp-1.15.2/out/src/tools/GenerateOptionsSchema.js:15 | assigning an existing key keeps the number of keys; a new key adds one |
| OptionsSchema.Copy | vscode/.vscode/extensions/ms-vscode.csharp-1.15.2/out/src/tools/GenerateOptionsSchema.js:60 | the deep copy of an object is an object, of an array an array with as many items, and a primitive is returned as it is |
| OptionsSchema.Merged | vscode/.vscode/extensions/ms-vscode.csharp-1.15.2/out/src/tools/GenerateOptionsSchema.js:73-80 | a failure while enumerating the additional definitions is the merge's failure; no additional definitions leave the base as it was |
| Platform.DistributionToString | vscode/.vscode/extensions/ms-vscode.csharp-1.17.1/out/src/platform.js:41-43 | the text starts with `name=<name>` and ends with `, version=<version>` |
| Platform.Unquote | vscode/.vscode/extensions/ms-vscode.csharp-1.17.1/out/src/platform.js:94-96 | a value longer than one character that starts and ends with a double quote loses that pair; any other value is kept |
| Platform.FromReleaseInfo | vscode/.vscode/extensions/ms-vscode.csharp-1.17.1/out/src/platform.js:82-112 | the loop over the lines split at the end-of-line text gives `ParseLines` of the lines from the unknown/unknown/null start |
| Platform.ReadLine | vscode/.vscode/extensions/ms-vscode.csharp-1.17.1/out/src/platform.js:88-92 | a trimmed line is split at its first `=` into its key and its unquoted value; a line without `=` gives nothing |
| Platform.KeyValueFound | vscode/.vscode/extensions/ms-vscode.csharp-1.17.1/out/src/platform.js:88-96 | a trimmed line with an `=` yields the text before the first `=` and the unquoted text after it |
| Platform.KeyValueAbsent | vscode/.vscode/extensions/ms-vscode.csharp-1.17.1/out/src/platform.js:90 | a trimmed line without `=` is skipped |
| Platform.ParseLinesStep | vscode/.vscode/extensions/ms-vscode.csharp-1.17.1/out/src/platform.js:87-110 | one line: skipped without `=`; otherwise its key is applied, and parsing stops once name, version and idLike are all set |
| Platform.DefaultsWhenNoKey | vscode/.vscode/extensions/ms-vscode.csharp-1.17.1/out/src/platform.js:83-85 | with no ID, VERSION_ID or ID_LIKE line the result is name and version `unknown` and idLike null (see also line 111) |
| Platform.StopsWhenComplete | vscode/.vscode/extensions/ms-vscode.csharp-1.17.1/out/src/platform.js:106-108 | once a line completes the distribution, no later line is read |
| Platform.IdLineSetsName | vscode/.vscode/extensions/ms-vscode.csharp-1.17.1/out/src/platform.js:97-99 | a final `ID=<value>` line sets the name to the unquoted value |
| Platform.LastLineSetsName | vscode/.vscode/extensions/ms-vscode.csharp-1.17.1/out/src/platform.js:97-99 | a final line whose key is ID sets the name to its value |
| Platform.IdLineKeyValue | vscode/.vscode/extensions/ms-vscode.csharp-1.17.1/out/src/platform.js:88-96 | `ID=<value>` splits into the key ID and the unquoted value |
| Platform.IdLineTrimmed | vscode/.vscode/extensions/ms-vscode.csharp-1.17.1/out/src/platform.js:88 | trimming leaves `ID=<value>` alone when the value does not end in white space |
| Platform.IdLineEquals | vscode/.vscode/extensions/ms-vscode.csharp-1.17.1/out/src/platform.js:89 | the first `=` of `ID=<value>` is at index 2 when the value has none |
| Platform.IdLineKey | vscode/.vscode/extensions/ms-vscode.csharp-1.17.1/out/src/platform.js:91 | the key of `ID=<value>` is ID |
| Platform.IdLineValue | vscode/.vscode/extensions/ms-vscode.csharp-1.17.1/out/src/platform.js:92 | the value of `ID=<value>` is the text after the `=` |
| Platform.PlatformInformation.IsValidPlatformForMono | vscode/.vscode/extensions/ms-vscode.csharp-1.17.1/out/src/platform.js:194-196 | true exactly for the platforms `linux` and `darwin` |
| Platform.NonEmpty | vscode/.vscode/extensions/ms-vscode.csharp-1.17.1/out/src/platform.js:130-145 | the parts kept are non-empty |
| Platform.NonEmptySnoc | vscode/.vscode/extensions/ms-vscode.csharp-1.17.1/out/src/platform.js:130-145 | one more part is kept exactly when it is non-empty |
| Platform.JoinSnoc | vscode/.vscode/extensions/ms-vscode.csharp-1.17.1/out/src/platform.js:134-136 | joining one more part adds the separator and the part |
| Platform.JoinOfNonEmpty | vscode/.vscode/extensions/ms-vscode.csharp-1.17.1/out/src/platform.js:133-134 | joined non-empty parts are empty exactly when there are none |
| Platform.AppendPartJoins | vscode/.vscode/extensions/ms-vscode.csharp-1.17.1/out/src/platform.js:132-143 | one `if (x) { if (result) result += ', '; result += x }` step turns the joined parts into the joined extended parts |
| Platform.PlatformToString | vscode/.vscode/extensions/ms-vscode.csharp-1.17.1/out/src/platform.js:130-145 | the platform, architecture and distribution texts that are non-empty, in order, joined with `, ` |
| Platform.ParseLines | vscode/.vscode/extensions/ms-vscode.csharp-1.17.1/out/src/platform.js:86-110 | lines that hold no `=` are skipped, so a text of such lines leaves the distribution as it was |
| ProcessPicker.GetPlatformSpecificPipeTransportOptions | vscode/.vscode/extensions/ms-vscode.csharp-1.16.2/out/src/features/processPicker.js:100-111 | darwin picks the `osx` section, linux the `linux` section, win32 the `windows` section, and any other platform none |
| ProcessPicker.GetPipeTransportOptions | vscode/.vscode/extensions/ms-vscode.csharp-1.16.2/out/src/features/processPicker.js:77-95 | program, args and cwd come from the platform section when its value is truthy and from the base settings otherwise; `quoteArgs` comes from the platform section when not null/undefined, else from the base when not null/undefined, else `true` |
| ProcessPicker.GetPipeTransportOptionsLegacy | vscode/.vscode/extensions/ms-vscode.csharp-1.15.2/out/src/features/processPicker.js:76-91 | the 1.15.2 merge is the 1.16.2 merge without `pipeCwd` |
| ProcessPicker.NoPlatformSectionKeepsBase | vscode/.vscode/extensions/ms-vscode.csharp-1.16.2/out/src/features/processPicker.js:81-88 | with no platform section the base program, args and cwd are kept, and quoting is on unless the base sets a falsy `quoteArgs` |
| ProcessPicker.QuoteArg | vscode/.vscode/extensions/ms-vscode.csharp-1.16.2/out/src/features/processPicker.js:164-169 | the argument is wrapped in double quotes exactly when quoting is on and it contains a space |
| ProcessPicker.QuoteAll | vscode/.vscode/extensions/ms-vscode.csharp-1.16.2/out/src/features/processPicker.js:171-173 | each argument is quoted as by `quoteArg` with quoting on, in order |
| ProcessPicker.ArgumentListWithoutSpaces | vscode/.vscode/extensions/ms-vscode.csharp-1.16.2/out/src/features/processPicker.js:170-173 | for arguments without spaces the argument list is the plain space-joined list |
| ProcessPicker.CreatePipeCmdFromStringVersions | vscode/.vscode/extensions/ms-vscode.csharp-1.16.2/out/src/features/processPicker.js:129-141 | the command as written (program always quoted when it has a space) equals the corrected command whenever quoting is on or the program has no space |
| ProcessPicker.ReplaceEach | vscode/.vscode/extensions/ms-vscode.csharp-1.16.2/out/src/features/processPicker.js:148-153 | every argument has each `${debuggerCommand}` replaced by `sh -s`, in order |
| ProcessPicker.ReplacePlaceholders | vscode/.vscode/extensions/ms-vscode.csharp-1.16.2/out/src/features/processPicker.js:149-151 | the loop replacing the first placeholder until none is left gives the replace-all result, which contains no placeholder |
| ProcessPicker.ItemText | vscode/.vscode/extensions/ms-vscode.csharp-1.16.2/out/src/features/processPicker.js:164-173 | a string is quoted as `quoteArg` does; an array item is written as its `toString`, its elements joined by commas, and quoted only when one element is exactly a space |
| ProcessPicker.ItemTexts | vscode/.vscode/extensions/ms-vscode.csharp-1.16.2/out/src/features/processPicker.js:160-173 | each item of the command list gives its text, in order |
| ProcessPicker.ReplaceItems | vscode/.vscode/extensions/ms-vscode.csharp-1.16.2/out/src/features/processPicker.js:147-153 | each string item has every placeholder replaced; an array item is kept as it is |
| ProcessPicker.ReplaceArgs | vscode/.vscode/extensions/ms-vscode.csharp-1.16.2/out/src/features/processPicker.js:147-154 | the `for..of` loop gives the items with their placeholders replaced, or the TypeError of `replace` when an array item holds the placeholder as an element |
| ProcessPicker.CreatePipeCmdFromArray | vscode/.vscode/extensions/ms-vscode.csharp-1.16.2/out/src/features/processPicker.js:142-162 | for any array: a TypeError from `filter` for an item that is neither a string nor an array; one from the replace loop for an array holding the placeholder; otherwise the program, then the items with placeholders replaced or followed by `sh -s`, each quoted when it has a space if `quoteArgs`, joined with spaces; on strings this is the string-array command |
| ProcessPicker.ItemsAgreeOnStrings | vscode/.vscode/extensions/ms-vscode.csharp-1.16.2/out/src/features/processPicker.js:142-162 | on an array of strings the command built from the items is the command built from the strings |
| ProcessPicker.NestedPlaceholderThrows | vscode/.vscode/extensions/ms-vscode.csharp-1.16.2/out/src/features/processPicker.js:145-151 | an array item whose element is `${debuggerCommand}` makes the replace loop throw |
| ProcessPicker.NestedArrayFlattened | vscode/.vscode/extensions/ms-vscode.csharp-1.16.2/out/src/features/processPicker.js:156-173 | a nested array `[a, b]` enters the command as `a,b`, followed by the quoted `sh -s` |
| ProcessPicker.Strings | vscode/.vscode/extensions/ms-vscode.csharp-1.16.2/out/src/features/processPicker.js:119-120 | an array of strings gives its strings in order |
| ProcessPicker.CreatePipeCmd | vscode/.vscode/extensions/ms-vscode.csharp-1.16.2/out/src/features/processPicker.js:113-128 | string args build the command as written from the string; an array builds the array command of its items (the string-array command when all are strings), failing on an item that is neither a string nor an array; any other args type fails with the invalid-type error |
| ProcessPicker.StringAndArrayAgree | vscode/.vscode/extensions/ms-vscode.csharp-1.16.2/out/src/features/processPicker.js:129-162 | for one argument without spaces the corrected string command and the array command agree unless the argument holds a placeholder while quoting is on |
| ProcessPicker.StringAndArrayAgreeAsWritten | vscode/.vscode/extensions/ms-vscode.csharp-1.16.2/out/src/features/processPicker.js:129-162 | the same agreement for the command as written needs in addition that quoting is on or the program has no space |
| ProcessPicker.ProgramQuotedDespiteQuoteArgs | vscode/.vscode/extensions/ms-vscode.csharp-1.16.2/out/src/features/processPicker.js:131 | with `quoteArgs` false the string command as written still quotes the program `my ssh`, while the array command and the corrected string command do not |
| ProcessPicker.ToAttachItem | vscode/.vscode/extensions/ms-vscode.csharp-1.16.2/out/src/features/processPicker.js:248-255 | the attach item's label is the name, its description and id the pid, its detail the command line |
| ProcessPicker.CommColumnTitleIs49 | vscode/.vscode/extensions/ms-vscode.csharp-1.16.2/out/src/features/processPicker.js:46 | the comm column title is 49 letters `a`, one less than the 50-character column |
| ProcessPicker.MatchPsLine | vscode/.vscode/extensions/ms-vscode.csharp-1.16.2/out/src/features/processPicker.js:379-380 | a matched line has a non-empty all-digit pid, a 49-character executable column, and no line terminator in the executable or argument columns |
| ProcessPicker.ParseLineFromPs | vscode/.vscode/extensions/ms-vscode.csharp-1.16.2/out/src/features/processPicker.js:370-387 | a process is produced exactly when the line matches, with trimmed pid, executable and command line from the three groups |
| ProcessPicker.PsColumnsRoundTrip | vscode/.vscode/extensions/ms-vscode.csharp-1.16.2/out/src/features/processPicker.js:379 | a line written as pid, space, 49-character executable, space, arguments matches with exactly those three columns |
| ProcessPicker.PsEntries | vscode/.vscode/extensions/ms-vscode.csharp-1.16.2/out/src/features/processPicker.js:343-352 | at most one process per line |
| ProcessPicker.ParseProcessFromPsArray | vscode/.vscode/extensions/ms-vscode.csharp-1.16.2/out/src/features/processPicker.js:355-369 | the loop from the second line gives the processes of the non-empty lines that parse, in order |
| ProcessPicker.ParseProcessFromPs | vscode/.vscode/extensions/ms-vscode.csharp-1.16.2/out/src/features/processPicker.js:339-354 | the output split at the end-of-line text, without its header line, gives the processes of the non-empty lines that parse |
| ProcessPicker.PsHeaderAndBlankLinesSkipped | vscode/.vscode/extensions/ms-vscode.csharp-1.16.2/out/src/features/processPicker.js:342-347 | the header line never contributes, and an empty line adds nothing |
| ProcessPicker.PsEntriesWellFormed | vscode/.vscode/extensions/ms-vscode.csharp-1.16.2/out/src/features/processPicker.js:379-385 | every parsed process has an all-digit pid, a name, and a command line without a line terminator |
| ProcessPicker.ParseLineFromWmic | vscode/.vscode/extensions/ms-vscode.csharp-1.16.2/out/src/features/processPicker.js:431-450 | a line without `=` leaves the record as it was; otherwise the key before the first `=` sets the trimmed name, the trimmed pid, or the command line without a leading `\??\`, and any other key leaves the record |
| ProcessPicker.ParseProcessFromWmic | vscode/.vscode/extensions/ms-vscode.csharp-1.16.2/out/src/features/processPicker.js:413-430 | the loop over the lines gives `WmicEntries` of the lines from an empty record |
| ProcessPicker.WmicRecordPerPidLine | vscode/.vscode/extensions/ms-vscode.csharp-1.16.2/out/src/features/processPicker.js:423-427 | exactly one record is emitted per line starting with `ProcessId` |
| ProcessPicker.KeyedLine | vscode/.vscode/extensions/ms-vscode.csharp-1.16.2/out/src/features/processPicker.js:432-449 | a `key=value` line with no `=` in the key updates exactly the field the key names |
| ProcessPicker.WmicBlock | vscode/.vscode/extensions/ms-vscode.csharp-1.16.2/out/src/features/processPicker.js:417-428 | a Name, CommandLine, ProcessId block becomes one record with those three fields, and parsing restarts from an empty record |
| ProcessPicker.CompareProcesses | vscode/.vscode/extensions/ms-vscode.csharp-1.16.2/out/src/features/processPicker.js:281-294 | the comparator never returns 0, and returns -1 exactly when the first process comes before the second: a dotnet process before any other, two dotnet processes by lowercased command line, any others by lowercased name |
| ProcessPicker.NotBeforeTransitive | vscode/.vscode/extensions/ms-vscode.csharp-1.16.2/out/src/features/processPicker.js:281-294 | "not before" is transitive, so the comparator is a consistent order |
| ProcessPicker.BeforeAsymmetric | vscode/.vscode/extensions/ms-vscode.csharp-1.16.2/out/src/features/processPicker.js:281-294 | no two processes each come before the other |
| ProcessPicker.InsertProcess | vscode/.vscode/extensions/ms-vscode.csharp-1.16.2/out/src/features/processPicker.js:281 | inserting gives the old entries plus the new one, as a multiset |
| ProcessPicker.SortProcesses | vscode/.vscode/extensions/ms-vscode.csharp-1.16.2/out/src/features/processPicker.js:281 | sorting keeps the entries as a multiset |
| ProcessPicker.SortProcessEntries | vscode/.vscode/extensions/ms-vscode.csharp-1.16.2/out/src/features/processPicker.js:277-297 | one attach item per entry, each the attach item of the entry at that place in the sorted order |
| ProcessPicker.SortProcessesSorted | vscode/.vscode/extensions/ms-vscode.csharp-1.16.2/out/src/features/processPicker.js:281-294 | the sorted entries are in comparator order and are a permutation of the input |
| ProcessPicker.DotnetFirst | vscode/.vscode/extensions/ms-vscode.csharp-1.16.2/out/src/features/processPicker.js:280-290 | after sorting every dotnet process (`dotnet.exe` on win32) comes before every other process |
| Wrappers.Find | vscode/.vscode/extensions/ms-vscode.csharp-1.17.1/out/src/omnisharp/protocol.js:130-141 | the search used by the three `find*TargetFramework` functions finds nothing exactly when no element matches, and otherwise returns the first matching element |
| Protocol.IsDotNetCoreProject | vscode/.vscode/extensions/ms-vscode.csharp-1.17.1/out/src/omnisharp/protocol.js:143-147 | a project is .NET Core exactly when some target framework starts with `netcoreapp` or `netstandard`, or starts with `net` and a digit 1-4 (the same in 1.15.2, protocol.js:69-86) |
| Protocol.DotNetDescriptors | vscode/.vscode/extensions/ms-vscode.csharp-1.17.1/out/src/omnisharp/protocol.js:152-158 | one descriptor per project.json project, in order, with its name, its path as directory and the path joined with `project.json` |
| Protocol.DotNetCoreProjects | vscode/.vscode/extensions/ms-vscode.csharp-1.17.1/out/src/omnisharp/protocol.js:161-162 | the MSBuild projects kept are exactly those of the input that are .NET Core |
| Protocol.MSBuildDescriptors | vscode/.vscode/extensions/ms-vscode.csharp-1.17.1/out/src/omnisharp/protocol.js:163-167 | one descriptor per kept MSBuild project, in order, with the base name, the directory name and the path |
| Protocol.GetDotNetCoreProjectDescriptors | vscode/.vscode/extensions/ms-vscode.csharp-1.17.1/out/src/omnisharp/protocol.js:149-172 | the result is every project.json descriptor, then the descriptors of the .NET Core MSBuild projects, each in input order; a missing part contributes nothing (1.15.2 orders them the same, protocol.js:88-111) |
| Protocol.MSBuildCoreDescriptors | vscode/.vscode/extensions/ms-vscode.csharp-1.17.1/out/src/omnisharp/protocol.js:160-170 | the second loop pushes the descriptors of the .NET Core MSBuild projects in order |
| Protocol.DotNetCoreProjectsAppend | vscode/.vscode/extensions/ms-vscode.csharp-1.17.1/out/src/omnisharp/protocol.js:161-162 | one more project adds itself to the kept list exactly when it is .NET Core |
| Protocol.ExecutableMSBuildAppend | vscode/.vscode/extensions/ms-vscode.csharp-1.17.1/out/src/omnisharp/protocol.js:176-179 | one more project is pushed exactly when it is an executable with a netcoreapp framework |
| Protocol.ExecutableMSBuildMembers | vscode/.vscode/extensions/ms-vscode.csharp-1.17.1/out/src/omnisharp/protocol.js:174-182 | a project is in the result exactly when it is in the input, is an executable and has a netcoreapp framework |
| Protocol.FindExecutableMSBuildProjects | vscode/.vscode/extensions/ms-vscode.csharp-1.17.1/out/src/omnisharp/protocol.js:174-182 | the loop gives the executable netcoreapp projects in input order (as in 1.15.2, protocol.js:113-135) |
| Protocol.Repeat | vscode/.vscode/extensions/ms-vscode.csharp-1.17.1/out/src/omnisharp/protocol.js:187-191 | `n` copies of the project, one per push |
| Protocol.ExecutableProjectJsonAppend | vscode/.vscode/extensions/ms-vscode.csharp-1.17.1/out/src/omnisharp/protocol.js:186-193 | one more project adds one copy of itself per selected configuration, when it has frameworks |
| Protocol.SelectedCountAppend | vscode/.vscode/extensions/ms-vscode.csharp-1.17.1/out/src/omnisharp/protocol.js:187-192 | one more configuration adds one push exactly when it has the requested name and `EmitEntryPoint` true |
| Protocol.SelectedCountPositive | vscode/.vscode/extensions/ms-vscode.csharp-1.17.1/out/src/omnisharp/protocol.js:187-192 | some push happens exactly when some configuration has the requested name and `EmitEntryPoint` true |
| Protocol.ExecutableProjectJsonMembers | vscode/.vscode/extensions/ms-vscode.csharp-1.17.1/out/src/omnisharp/protocol.js:184-196 | a project is in the result exactly when it is in the input, has frameworks, and has a configuration with the requested name and `EmitEntryPoint` true |
| Protocol.FindExecutableProjectJsonProjects | vscode/.vscode/extensions/ms-vscode.csharp-1.17.1/out/src/omnisharp/protocol.js:184-196 | the nested loops give each project once per matching configuration, in input order |
| Protocol.PushSelectedConfigurations | vscode/.vscode/extensions/ms-vscode.csharp-1.17.1/out/src/omnisharp/protocol.js:187-193 | the inner loop appends one copy of the project per matching configuration, when it has frameworks |
| Protocol.ContainsDotNetCoreProjects | vscode/.vscode/extensions/ms-vscode.csharp-1.17.1/out/src/omnisharp/protocol.js:198-206 | true exactly when there is a project.json project executable in Debug or an executable netcoreapp MSBuild project (the same in 1.15.2, protocol.js:137-145) |
| Protocol.WalkVisitsEach | vscode/.vscode/extensions/ms-vscode.csharp-1.17.1/out/src/omnisharp/protocol.js:116-126 | the walk makes one call per element of the forest: the `k`-th call is on the element at the `k`-th path of the pre-order, every path to an element of the forest is in the pre-order, and no path is in it twice |
| Protocol.WalkSize | vscode/.vscode/extensions/ms-vscode.csharp-1.17.1/out/src/omnisharp/protocol.js:116-126 | the number of calls is the number of elements of the forest, nested ones included |
| Protocol.WalkPassesParent | vscode/.vscode/extensions/ms-vscode.csharp-1.17.1/out/src/omnisharp/protocol.js:117-122 | each call passes either the parent the walk started with, for a top-level element, or the element whose children hold it |
| Protocol.WalkPreOrder | vscode/.vscode/extensions/ms-vscode.csharp-1.17.1/out/src/omnisharp/protocol.js:118-122 | the paths of the calls are strictly increasing in pre-order: an element before its descendants, and earlier siblings with their descendants before later ones |
| Protocol.AncestorVisitedFirst | vscode/.vscode/extensions/ms-vscode.csharp-1.17.1/out/src/omnisharp/protocol.js:118-122 | an element is visited before every element below it |
| Protocol.SiblingsVisitedInOrder | vscode/.vscode/extensions/ms-vscode.csharp-1.17.1/out/src/omnisharp/protocol.js:118-122 | of two children of the same element, the earlier one is visited first |
| Protocol.WalkStarts | vscode/.vscode/extensions/ms-vscode.csharp-1.17.1/out/src/omnisharp/protocol.js:118-122 | an element is visited before its first child, which is visited with the element as parent |
| Protocol.PathsFromValid | vscode/.vscode/extensions/ms-vscode.csharp-1.17.1/out/src/omnisharp/protocol.js:116-126 | every path of the pre-order leads to an element of the forest |
| Protocol.PathsFromComplete | vscode/.vscode/extensions/ms-vscode.csharp-1.17.1/out/src/omnisharp/protocol.js:116-126 | every element of the forest has its path in the pre-order |
| Protocol.PathsFromOrdered | vscode/.vscode/extensions/ms-vscode.csharp-1.17.1/out/src/omnisharp/protocol.js:118-122 | the pre-order is strictly increasing in the path order |
| Protocol.WalkAt | vscode/.vscode/extensions/ms-vscode.csharp-1.17.1/out/src/omnisharp/protocol.js:116-126 | each call of the walk is on the element at the path of the same index |
| Protocol.WalkLength | vscode/.vscode/extensions/ms-vscode.csharp-1.17.1/out/src/omnisharp/protocol.js:116-126 | the walk makes as many calls as the pre-order has paths |
| Protocol.WalkVisits | vscode/.vscode/extensions/ms-vscode.csharp-1.17.1/out/src/omnisharp/protocol.js:116-126 | the walk calls the action on the elements `Visits` lists, one call per element and in that order |
| Protocol.VisitsAt | vscode/.vscode/extensions/ms-vscode.csharp-1.17.1/out/src/omnisharp/protocol.js:116-126 | the `k`-th element visited is the element at the `k`-th path of the pre-order |
| Protocol.VisitsLength | vscode/.vscode/extensions/ms-vscode.csharp-1.17.1/out/src/omnisharp/protocol.js:116-126 | as many elements are visited as the pre-order has paths |
| Protocol.PathBeforeIrreflexive | vscode/.vscode/extensions/ms-vscode.csharp-1.17.1/out/src/omnisharp/protocol.js:118-122 | no path comes before itself |
| Protocol.PathBeforeAsymmetric | vscode/.vscode/extensions/ms-vscode.csharp-1.17.1/out/src/omnisharp/protocol.js:118-122 | two paths are never each before the other |
| Protocol.PrefixBefore | vscode/.vscode/extensions/ms-vscode.csharp-1.17.1/out/src/omnisharp/protocol.js:118-122 | a path comes before every longer path it starts |
| Protocol.SiblingBefore | vscode/.vscode/extensions/ms-vscode.csharp-1.17.1/out/src/omnisharp/protocol.js:118-122 | the paths of two siblings are ordered by their index |
| Protocol.Walk | vscode/.vscode/extensions/ms-vscode.csharp-1.17.1/out/src/omnisharp/protocol.js:116-126 | a walk over a non-empty forest starts with the first element and the parent it was given |
| Protocol.FindNetFrameworkTargetFramework | vscode/.vscode/extensions/ms-vscode.csharp-1.17.1/out/src/omnisharp/protocol.js:130-133 | the result is a target framework of the project matching `^net[1-4]`, and there is none exactly when no target framework matches |
| Protocol.FindNetCoreAppTargetFramework | vscode/.vscode/extensions/ms-vscode.csharp-1.17.1/out/src/omnisharp/protocol.js:135-137 | the result is a target framework of the project starting with `netcoreapp`, and there is none exactly when no target framework does |
| Protocol.FindNetStandardTargetFramework | vscode/.vscode/extensions/ms-vscode.csharp-1.17.1/out/src/omnisharp/protocol.js:139-141 | the result is a target framework of the project starting with `netstandard`, and there is none exactly when no target framework does |
| Protocol.DotNetDescriptor | vscode/.vscode/extensions/ms-vscode.csharp-1.17.1/out/src/omnisharp/protocol.js:152-156 | a project.json project is named by its name, lives in its path, and its file is `project.json` in that directory |
| Protocol.MSBuildDescriptor | vscode/.vscode/extensions/ms-vscode.csharp-1.17.1/out/src/omnisharp/protocol.js:163-167 | an MSBuild project's file is its path, its name the base name and its directory the directory name of that file |
| RequestQueue.RequestQueue.constructor | vscode/.vscode/extensions/ms-vscode.csharp-1.16.2/out/src/omnisharp/requestQueue.js:14-21 | a queue starts with no pending and no waiting requests, under its name, capacity and request sender |
| RequestQueue.RequestQueue.Enqueue | vscode/.vscode/extensions/ms-vscode.csharp-1.16.2/out/src/omnisharp/requestQueue.js:25-28 | the request is appended at the back of the pending list; the waiting map is unchanged |
| RequestQueue.RequestQueue.Dequeue | vscode/.vscode/extensions/ms-vscode.csharp-1.16.2/out/src/omnisharp/requestQueue.js:32-39 | returns the waiting request stored under the id, or nothing, and removes that id from the waiting map |
| RequestQueue.RequestQueue.CancelRequest | vscode/.vscode/extensions/ms-vscode.csharp-1.16.2/out/src/omnisharp/requestQueue.js:40-48 | a pending request is removed at its first position and an error naming the command is returned for its onError; a request already waiting is left alone |
| RequestQueue.SpliceOut | vscode/.vscode/extensions/ms-vscode.csharp-1.16.2/out/src/omnisharp/requestQueue.js:41-43 | removing the first occurrence found by indexOf leaves every other pending request in order |
| RequestQueue.RequestQueue.HasPending | vscode/.vscode/extensions/ms-vscode.csharp-1.16.2/out/src/omnisharp/requestQueue.js:52-54 | true exactly when the pending list is non-empty |
| RequestQueue.RequestQueue.IsFull | vscode/.vscode/extensions/ms-vscode.csharp-1.16.2/out/src/omnisharp/requestQueue.js:58-60 | true exactly when the number of waiting requests has reached the capacity |
| RequestQueue.RequestQueue.ProcessPending | vscode/.vscode/extensions/ms-vscode.csharp-1.16.2/out/src/omnisharp/requestQueue.js:64-80 | the new pending and waiting state is the one the processing loop computes from the old state |
| RequestQueue.RunMoves | vscode/.vscode/extensions/ms-vscode.csharp-1.16.2/out/src/omnisharp/requestQueue.js:69-78 | the loop sends the first Moved pending requests in order and stores each under the id the sender returned |
| RequestQueue.RunStops | vscode/.vscode/extensions/ms-vscode.csharp-1.16.2/out/src/omnisharp/requestQueue.js:70-77 | the loop stops only when nothing is pending, the free slots are used up, or the waiting map is full |
| RequestQueue.RunNotFullBefore | vscode/.vscode/extensions/ms-vscode.csharp-1.16.2/out/src/omnisharp/requestQueue.js:74-77 | the loop never stops before the waiting map is full: before the last request sent the map was below capacity |
| RequestQueue.ProcessMoves | vscode/.vscode/extensions/ms-vscode.csharp-1.16.2/out/src/omnisharp/requestQueue.js:64-80 | processing takes requests from the front of the pending list in order, at most as many as there were free slots |
| RequestQueue.CapacityKept | vscode/.vscode/extensions/ms-vscode.csharp-1.16.2/out/src/omnisharp/requestQueue.js:69-77 | a queue whose waiting map is within capacity stays within capacity after processing |
| RequestQueue.ProcessStoresLast | vscode/.vscode/extensions/ms-vscode.csharp-1.16.2/out/src/omnisharp/requestQueue.js:73-74 | every sent request is found in the waiting map unless a later request got the same id; the last one sent always is |
| RequestQueue.StoreSize | vscode/.vscode/extensions/ms-vscode.csharp-1.16.2/out/src/omnisharp/requestQueue.js:74 | storing one more request adds at most one entry to the waiting map |
| RequestQueue.StoreLast | vscode/.vscode/extensions/ms-vscode.csharp-1.16.2/out/src/omnisharp/requestQueue.js:74 | the request stored last is found under its own id |
| RequestQueue.RequestQueueCollection.constructor | vscode/.vscode/extensions/ms-vscode.csharp-1.16.2/out/src/omnisharp/requestQueue.js:83-87 | the three queues get capacities 1, the concurrency, and max(floor(concurrency / 4), 2) |
| RequestQueue.DeferredCapacity | vscode/.vscode/extensions/ms-vscode.csharp-1.16.2/out/src/omnisharp/requestQueue.js:86 | the deferred capacity is at least 2 and is floor(concurrency / 4) when that is larger |
| RequestQueue.Route | vscode/.vscode/extensions/ms-vscode.csharp-1.16.2/out/src/omnisharp/requestQueue.js:88-98 | priority commands go to the priority queue, otherwise normal commands to the normal queue, everything else to the deferred queue |
| RequestQueue.RequestQueueCollection.GetQueue | vscode/.vscode/extensions/ms-vscode.csharp-1.16.2/out/src/omnisharp/requestQueue.js:88-98 | returns the queue that Route chooses for the command |
| RequestQueue.RequestQueueCollection.IsEmpty | vscode/.vscode/extensions/ms-vscode.csharp-1.16.2/out/src/omnisharp/requestQueue.js:99-103 | true exactly when none of the three queues has a pending request; waiting requests do not count |
| RequestQueue.RequestQueueCollection.Enqueue | vscode/.vscode/extensions/ms-vscode.csharp-1.16.2/out/src/omnisharp/requestQueue.js:104-108 | the request is appended to its command's queue and then the queues are drained |
| RequestQueue.RequestQueueCollection.Dequeue | vscode/.vscode/extensions/ms-vscode.csharp-1.16.2/out/src/omnisharp/requestQueue.js:109-112 | returns the waiting request with that id from the command's queue and removes it there only |
| RequestQueue.RequestQueueCollection.CancelRequest | vscode/.vscode/extensions/ms-vscode.csharp-1.16.2/out/src/omnisharp/requestQueue.js:113-116 | cancels the request on its command's queue only; a pending request is cut out at its first position, all other requests stay in order |
| RequestQueue.RequestQueueCollection.Drain | vscode/.vscode/extensions/ms-vscode.csharp-1.16.2/out/src/omnisharp/requestQueue.js:117-140 | the new state of the three queues is the one Drained computes from the old state |
| RequestQueue.Enqueued | vscode/.vscode/extensions/ms-vscode.csharp-1.16.2/out/src/omnisharp/requestQueue.js:104-107 | the enqueued request ends up at the back of the pending list of the queue Route chooses, and the other queues are unchanged |
| RequestQueue.DrainPriorityFirst | vscode/.vscode/extensions/ms-vscode.csharp-1.16.2/out/src/omnisharp/requestQueue.js:128-132 | while the priority queue has pending work, draining processes only that queue |
| RequestQueue.DrainBlocked | vscode/.vscode/extensions/ms-vscode.csharp-1.16.2/out/src/omnisharp/requestQueue.js:118-126 | nothing is sent while already processing, while the priority request is outstanding, or while both other queues are full |
| RequestQueue.DrainKeepsCapacity | vscode/.vscode/extensions/ms-vscode.csharp-1.16.2/out/src/omnisharp/requestQueue.js:117-140 | queues within their capacities stay within them after draining |
| RequestQueue.DrainTakesFromFront | vscode/.vscode/extensions/ms-vscode.csharp-1.16.2/out/src/omnisharp/requestQueue.js:117-140 | draining sends requests only from the front of each queue's pending list |
| TslintServer.ConfigCache.constructor | vscode/.vscode/extensions/eg2.tslint-1.0.33/server/tslintServer.js:23-26 | a new cache holds no path and no configuration |
| TslintServer.ConfigCache.Set | vscode/.vscode/extensions/eg2.tslint-1.0.33/server/tslintServer.js:27-30 | the cache holds the given path and configuration: a lookup of that path returns the configuration, a lookup of any other path returns nothing |
| TslintServer.ConfigCache.Get | vscode/.vscode/extensions/eg2.tslint-1.0.33/server/tslintServer.js:31-36 | the configuration is returned only for the path last set, and nothing for any other path |
| TslintServer.ConfigCache.IsDefaultLinterConfig | vscode/.vscode/extensions/eg2.tslint-1.0.33/server/tslintServer.js:37-42 | true exactly when a configuration is held and it is the default linter configuration; an empty cache gives false |
| TslintServer.ConfigCache.Flush | vscode/.vscode/extensions/eg2.tslint-1.0.33/server/tslintServer.js:43-46 | the cache is emptied: every lookup returns nothing and the default-configuration flag is false |
| TslintServer.MakeDiagnostic | vscode/.vscode/extensions/eg2.tslint-1.0.33/server/tslintServer.js:105-135 | the severity is Error exactly when the settings do not force warnings and the rule severity is `error` (Warning otherwise); the message is the failure followed by the rule name in parentheses when there is one; range, code and source `tslint` come from the problem |
| TslintServer.NatToStringInjective | vscode/.vscode/extensions/eg2.tslint-1.0.33/server/tslintServer.js:82-85 | two numbers with the same decimal text are equal |
| TslintServer.ComputeKeyInjective | vscode/.vscode/extensions/eg2.tslint-1.0.33/server/tslintServer.js:82-85 | two diagnostics with the same key have the same range and the same code |
| TslintServer.DiagnosticKeyIdentifiesProblem | vscode/.vscode/extensions/eg2.tslint-1.0.33/server/tslintServer.js:82-85 | two problems whose diagnostics share a key have the same start, end and rule name |
| TslintServer.ConvertReplacement | vscode/.vscode/extensions/eg2.tslint-1.0.33/server/tslintServer.js:166-173 | a replacement becomes an edit from the position of its start offset to the position of its end offset, with its text |
| TslintServer.ConvertAll | vscode/.vscode/extensions/eg2.tslint-1.0.33/server/tslintServer.js:711 | each replacement is converted in order |
| TslintServer.CreateAutoFix | vscode/.vscode/extensions/eg2.tslint-1.0.33/server/tslintServer.js:698-725 | the label is `Fix: ` and the failure, the version is the document's; an autofix edit is kept as the only edit, a single replacement becomes one edit, and a tslint 4 replacement list or a replacement array becomes one edit per replacement |
| TslintServer.ReplacementsAreEmptyIffNoEdits | vscode/.vscode/extensions/eg2.tslint-1.0.33/server/tslintServer.js:687-697 | `replacementsAreEmpty` holds exactly when the fix built from it has no edits |
| TslintServer.GetLastEdit | vscode/.vscode/extensions/eg2.tslint-1.0.33/server/tslintServer.js:793-799 | nothing for an empty list, otherwise its last element |
| TslintServer.SomeNextOverlaps | vscode/.vscode/extensions/eg2.tslint-1.0.33/server/tslintServer.js:775-788 | true exactly when some next edit overlaps the given last edit |
| TslintServer.SomeLastOverlaps | vscode/.vscode/extensions/eg2.tslint-1.0.33/server/tslintServer.js:774-789 | true exactly when some pair of a last edit and a next edit overlaps |
| TslintServer.Overlaps | vscode/.vscode/extensions/eg2.tslint-1.0.33/server/tslintServer.js:769-791 | no last fix never overlaps; otherwise two fixes overlap exactly when some edit of the last ends on a later line than some edit of the next starts, or on the same line at or after its character |
| TslintServer.EditOverlapsLines | vscode/.vscode/extensions/eg2.tslint-1.0.33/server/tslintServer.js:776-787 | an edit ending on an earlier line does not overlap, one ending on a later line does, and one ending where the next starts does |
| TslintServer.ToPrimitive | vscode/.vscode/extensions/eg2.tslint-1.0.33/server/tslintServer.js:752 | every position object converts to the same text `[object Object]` |
| TslintServer.CompareAsWrittenIsZero | vscode/.vscode/extensions/eg2.tslint-1.0.33/server/tslintServer.js:747-768 | the comparator as written returns 0 for any two fixes, since it compares position objects through that common text |
| TslintServer.CompareStart | vscode/.vscode/extensions/eg2.tslint-1.0.33/server/tslintServer.js:747-768 | the evidently intended comparator is negative exactly when the first fix's first edit starts before the other's (by line, then character), positive in the opposite case |
| TslintServer.Insert | vscode/.vscode/extensions/eg2.tslint-1.0.33/server/tslintServer.js:749 | inserting keeps the fixes, as a multiset, plus the new one |
| TslintServer.SortBy | vscode/.vscode/extensions/eg2.tslint-1.0.33/server/tslintServer.js:749 | sorting keeps the fixes as a multiset |
| TslintServer.SortFixesAsWrittenKeepsOrder | vscode/.vscode/extensions/eg2.tslint-1.0.33/server/tslintServer.js:747-768 | `sortFixes` as written leaves the fixes in the order given |
| TslintServer.SortFixesSorted | vscode/.vscode/extensions/eg2.tslint-1.0.33/server/tslintServer.js:747-768 | the evidently intended sort orders the fixes by the start of their first edit and is a permutation |
| TslintServer.SelectProperties | vscode/.vscode/extensions/eg2.tslint-1.0.33/server/tslintServer.js:804-811 | after `n` fixes the kept ones are a subsequence of them, each clear of the one kept before it, the flag is set exactly when one was left out, and the first fix is always kept |
| TslintServer.SelectKeepsAllClear | vscode/.vscode/extensions/eg2.tslint-1.0.33/server/tslintServer.js:804-811 | when no fix overlaps the one before it, every fix is kept and the flag stays false |
| TslintServer.GetAllNonOverlappingFixes | vscode/.vscode/extensions/eg2.tslint-1.0.33/server/tslintServer.js:800-813 | the result is the selection over the fixes in the order given (the sort as written keeps it): a subsequence of them starting with the first, each kept fix clear of the one kept before, and the flag says whether any was left out |
| TslintServer.SelectLoop | vscode/.vscode/extensions/eg2.tslint-1.0.33/server/tslintServer.js:804-811 | the loop keeps a fix when it does not overlap the last one kept and sets the flag otherwise |
| TslintServer.NonOverlappingSelection | vscode/.vscode/extensions/eg2.tslint-1.0.33/server/tslintServer.js:800-813 | with the intended sort the kept fixes would be in order of their start, each clear of the one before, with the flag set exactly when one was left out |
| TslintServer.UnsortedFixesDropped | vscode/.vscode/extensions/eg2.tslint-1.0.33/server/tslintServer.js:747-768 | fixes on lines 3 and 1, given in that order, keep only the later one and report an overlap as written, while sorted first both are kept |
| TslintServer.SelectPair | vscode/.vscode/extensions/eg2.tslint-1.0.33/server/tslintServer.js:804-811 | of two fixes the second is kept exactly when it does not overlap the first |
| TslintServer.TextOrEmpty | vscode/.vscode/extensions/eg2.tslint-1.0.33/server/tslintServer.js:816 | a missing edit text becomes the empty text |
| TslintServer.CreateTextEdit | vscode/.vscode/extensions/eg2.tslint-1.0.33/server/tslintServer.js:815-817 | one text edit per edit, over the edit's range, with its text or the empty text |
| TslintServer.AllTextEditsAppend | vscode/.vscode/extensions/eg2.tslint-1.0.33/server/tslintServer.js:857-863 | the edits of two lists of fixes are the edits of the first followed by those of the second |
| TslintServer.AllTextEditsCount | vscode/.vscode/extensions/eg2.tslint-1.0.33/server/tslintServer.js:857-863 | the number of edits is the sum over the fixes of their edit counts |
| TslintServer.ConcatenateEdits | vscode/.vscode/extensions/eg2.tslint-1.0.33/server/tslintServer.js:857-863 | the loop gives every fix's text edits, fix by fix in order, and as many as the fixes have edits |
| TslintServer.ComputeKey | vscode/.vscode/extensions/eg2.tslint-1.0.33/server/tslintServer.js:82-85 | the key opens with `[` and ends with `-` and the diagnostic's rule code |
| TslintServer.ReplacementsAreEmpty | vscode/.vscode/extensions/eg2.tslint-1.0.33/server/tslintServer.js:687-697 | only a tslint 4 fix or an array of replacements can be empty; a single replacement or an autofix edit never is |
| TslintServer.CompareAsWritten | vscode/.vscode/extensions/eg2.tslint-1.0.33/server/tslintServer.js:749-767 | the comparator as written answers -1, 0 or 1 |
| TslintServer.SortFixesAsWritten | vscode/.vscode/extensions/eg2.tslint-1.0.33/server/tslintServer.js:747-768 | `sortFixes` as written returns a permutation of the fixes |
| UniProps.FormatName | sublime/Packages/backrefs/tools/unipropgen.py:46-48 | a formatted name holds no space, hyphen, underscore or upper-case ASCII letter |
| UniProps.FormatNameIdempotent | sublime/Packages/backrefs/tools/unipropgen.py:46-48 | formatting a formatted name again changes nothing, when the only white space in the name is the plain space |
| UniProps.FormatNameNotIdempotent | sublime/Packages/backrefs/tools/unipropgen.py:46-48 | in general format_name is not idempotent: "-\tx" gives "\tx", which gives "x" |
| UniProps.CreateSpan | sublime/Packages/backrefs/tools/unipropgen.py:51-61 | an empty list is an IndexError; otherwise the argument list is widened to two elements when it had one |
| UniProps.CreateSpanWidens | sublime/Packages/backrefs/tools/unipropgen.py:54-55 | a one-element list becomes [x, x], mutated in place as the caller sees it |
| UniProps.CreateSpanValues | sublime/Packages/backrefs/tools/unipropgen.py:56-61 | in bytes mode a start above 0x7F gives None and an end above 0x7F is clamped to 0x7F; otherwise the span is exactly the integers from the start to the end, in increasing order |
| UniProps.ListOf | sublime/Packages/backrefs/tools/unipropgen.py:73-75 | list(s) holds each member of the set exactly once |
| UniProps.UnionOf | sublime/Packages/backrefs/tools/unipropgen.py:69-71 | the loop collects exactly the code points some entry of the table lists |
| UniProps.NotExplicitlyDefined | sublime/Packages/backrefs/tools/unipropgen.py:64-75 | only the entry name.lower() changes; it becomes its own members, when it existed, plus every code point of ALL_CHARS that no entry lists, each once |
| UniProps.NotExplicitlyDefinedCovers | sublime/Packages/backrefs/tools/unipropgen.py:64-75 | afterwards every code point of ALL_CHARS is listed by some entry, and when the entries lay within ALL_CHARS they list exactly ALL_CHARS |
| UniProps.FillUnassigned | sublime/Packages/backrefs/tools/unipropgen.py:564-567 | the fill-in entry, na in gen_age and y in gen_nf_quick_check, becomes exactly the code points that no entry lists; nothing else changes |
| UniProps.FillUnassignedExactly | sublime/Packages/backrefs/tools/unipropgen.py:564-567 | a code point is in the filled entry exactly when no other entry lists it, and all entries together then cover every code point |
| UniProps.NfQuickCheckFill | sublime/Packages/backrefs/tools/unipropgen.py:624-628 | every sub-table of the quick-check table gets its y entry holding exactly the code points none of its entries lists; the other entries are unchanged |
| UniProps.PlainUnionOf | sublime/Packages/backrefs/tools/unipropgen.py:828-833 | the loop collects exactly the code points of the sub-tables whose names do not start with ^ |
| UniProps.GenUPosix | sublime/Packages/backrefs/tools/unipropgen.py:824-883 | a KeyError exactly when a table it reads is missing; otherwise the POSIX table with the eleven classes written, each computed by its set formula |
| UniProps.PosixFixedClasses | sublime/Packages/backrefs/tools/unipropgen.py:836-883 | posixdigit is 0x30-0x39, posixascii is 0-0x7F, and posixxdigit is 0-9, A-F and a-f |
| UniProps.PosixDerivedClasses | sublime/Packages/backrefs/tools/unipropgen.py:827-879 | posixpunct is the punctuation and symbol code points that are not alphabetic; posixprint holds no control character; posixgraph stays inside the code space and excludes white space, Cc, Cn and Cs; every ASCII digit is in posixalnum |
| UniProps.Least | sublime/Packages/backrefs/tools/unipropgen.py:84 | the key chosen is the least of the keys still to visit, in sorted order |
| UniProps.ConvertKeyKeeps | sublime/Packages/backrefs/tools/unipropgen.py:84-142 | converting one key writes only that key and, as a text, its partner key |
| UniProps.Char2Range | sublime/Packages/backrefs/tools/unipropgen.py:78-142 | the dict level of char2range: its result is Converted of the table, visiting the keys in sorted order |
| UniProps.PendingTextRaises | sublime/Packages/backrefs/tools/unipropgen.py:86-90 | a key still to be visited that holds a text makes the walk raise AttributeError, since a string has no sort |
| UniProps.TextValueRaises | sublime/Packages/backrefs/tools/unipropgen.py:86-90 | a table that already holds a text under some key raises AttributeError |
| UniProps.CollisionRaises | sublime/Packages/backrefs/tools/unipropgen.py:141-142 | when inverting, a list under x whose partner key ('^' + x, or x without '^') is also in the table and sorts after x makes char2range raise AttributeError, since the complement text overwrote the list |
| UniProps.FlatConversion | sublime/Packages/backrefs/tools/unipropgen.py:78-142 | for a table of lists whose keys are clear of each other's partners, char2range succeeds; every key holds the run text of its sorted list and, when inverting, its partner key holds the complement text |
| UniRanges.HexFits | sublime/Packages/backrefs/tools/unipropgen.py:36-42 | a value below 16^width is written with exactly width lower-case hexadecimal digits that read back as the value, as %02x, %04x and %08x do |
| UniRanges.EscapeDecodes | sublime/Packages/backrefs/tools/unipropgen.py:31-43 | decoding the escape uniformat writes gives back the code point, after an escaped backslash for the group-escape characters |
| UniRanges.RangesRoundTrip | sublime/Packages/backrefs/tools/unipropgen.py:106-109 | reading the joined range texts back as a character class body gives exactly the ranges written |
| UniRanges.SortCodes | sublime/Packages/backrefs/tools/unipropgen.py:90 | the sorted list holds the same elements as the original |
| UniRanges.SortCodesOrdered | sublime/Packages/backrefs/tools/unipropgen.py:90 | the sorted list is in ascending order, and strictly ascending when the list has no duplicates |
| UniRanges.RunsEnds | sublime/Packages/backrefs/tools/unipropgen.py:99-126 | the first run starts at the first value and the last run ends at the last value |
| UniRanges.RunsSeparated | sublime/Packages/backrefs/tools/unipropgen.py:99-126 | the runs of an increasing list are non-empty, ascending and separated by at least one missing value |
| UniRanges.RunsCover | sublime/Packages/backrefs/tools/unipropgen.py:99-126 | the runs of an increasing list cover exactly its elements |
| UniRanges.GapsCover | sublime/Packages/backrefs/tools/unipropgen.py:110-139 | the complement ranges cover exactly the points of [0, maxrange] that no run covers, and lie inside [0, maxrange] |
| UniRanges.RunsPartition | sublime/Packages/backrefs/tools/unipropgen.py:97-139 | for an increasing list within [0, maxrange], the runs and the complement ranges partition [0, maxrange]: each point is in exactly one of them |
| UniRanges.EmptyComplement | sublime/Packages/backrefs/tools/unipropgen.py:120-121 | an empty list gives no runs and the single complement range from 0 to maxrange |
| UniRanges.RunsRoundTrip | sublime/Packages/backrefs/tools/unipropgen.py:140 | reading back the stored run text gives the runs of the list |
| UniRanges.ComplementRoundTrip | sublime/Packages/backrefs/tools/unipropgen.py:141-142 | reading back the stored complement text gives the complement ranges |
| UniRanges.ScanRuns | sublime/Packages/backrefs/tools/unipropgen.py:91-119 | the loop's variables after the whole list are the ones ScanAfter describes, with the run and gap texts written so far |
| UniRanges.ScanAfterInv | sublime/Packages/backrefs/tools/unipropgen.py:99-119 | after any number of values the loop's closed runs plus the open run are the runs of the values seen so far, and the gaps written are the gaps before them |
| UniRanges.ScanClose | sublime/Packages/backrefs/tools/unipropgen.py:122-139 | after the loop, the run texts are those of all runs and, when inverting, the gap texts are those of the gaps before them plus the tail up to maxrange |
| UniRanges.ListRanges | sublime/Packages/backrefs/tools/unipropgen.py:89-139 | the list branch of char2range: the stored text is RunsText of the sorted list and, when inverting, the complement text is ComplementText of it |
| XmlFormatter.Initial | vscode/.vscode/extensions/dotjoshjohnson.xml-2.4.0/out/formatting/formatters/v2-xml-formatter.js:24-30 | the loop starts with empty output, the location stack holding only `Text`, and the initial indent level |
| XmlFormatter.Top | vscode/.vscode/extensions/dotjoshjohnson.xml-2.4.0/out/formatting/formatters/v2-xml-formatter.js:39-41 | the top of the location stack is `loc` exactly when `isLocation(loc)` holds |
| XmlFormatter.LastNonText | vscode/.vscode/extensions/dotjoshjohnson.xml-2.4.0/out/formatting/formatters/v2-xml-formatter.js:31-38 | nothing exactly when the stack holds only `Text`; otherwise the last location on it that is not `Text` |
| XmlFormatter.IsLastNonTextLocation | vscode/.vscode/extensions/dotjoshjohnson.xml-2.4.0/out/formatting/formatters/v2-xml-formatter.js:31-38 | the backward scan answers true exactly when the last non-`Text` location is `loc` |
| XmlFormatter.LastNonTextPush | vscode/.vscode/extensions/dotjoshjohnson.xml-2.4.0/out/formatting/formatters/v2-xml-formatter.js:45-50 | pushing `Text` leaves the last non-`Text` location as it was; pushing any other location makes it that one |
| XmlFormatter.SetLocation | vscode/.vscode/extensions/dotjoshjohnson.xml-2.4.0/out/formatting/formatters/v2-xml-formatter.js:45-50 | the location is pushed and becomes the top; entering `Text` forgets the last word character; nothing else changes |
| XmlFormatter.AddIndent | vscode/.vscode/extensions/dotjoshjohnson.xml-2.4.0/out/formatting/formatters/v2-xml-formatter.js:205-207 | appending the indentation fails with the `repeat` range error exactly when the indent level is negative, and otherwise appends the text, the indentation and the rest |
| XmlFormatter.Enter | vscode/.vscode/extensions/dotjoshjohnson.xml-2.4.0/out/formatting/formatters/v2-xml-formatter.js:66-84 | entering a location after a successful append makes it the top and keeps the attribute quote |
| XmlFormatter.Step | vscode/.vscode/extensions/dotjoshjohnson.xml-2.4.0/out/formatting/formatters/v2-xml-formatter.js:52-199 | one turn of the loop moves forward within the text, and fails only with a negative repeat count |
| XmlFormatter.Other | vscode/.vscode/extensions/dotjoshjohnson.xml-2.4.0/out/formatting/formatters/v2-xml-formatter.js:186-198 | the final branch copies the character, keeps stack, indent and quote, sets the line-break run on a newline and clears it on other non-white text, and records a word character |
| XmlFormatter.InText | vscode/.vscode/extensions/dotjoshjohnson.xml-2.4.0/out/formatting/formatters/v2-xml-formatter.js:59-180 | in `Text` a turn consumes one character and never changes the attribute quote or enters an attribute value |
| XmlFormatter.OpeningTag | vscode/.vscode/extensions/dotjoshjohnson.xml-2.4.0/out/formatting/formatters/v2-xml-formatter.js:90-108 | the `<` of an opening tag enters `StartTagName`, one level deeper unless in mixed content, and fails exactly when not in mixed content and the level is negative |
| XmlFormatter.OpeningTagIndent | vscode/.vscode/extensions/dotjoshjohnson.xml-2.4.0/out/formatting/formatters/v2-xml-formatter.js:94-106 | after another tag the `<` goes on a new indented line, otherwise trailing blanks are trimmed and the indentation added, and in mixed content the `<` is appended with no change of level |
| XmlFormatter.EndTagStart | vscode/.vscode/extensions/dotjoshjohnson.xml-2.4.0/out/formatting/formatters/v2-xml-formatter.js:158-180 | the `<` of an end tag enters `EndTag` one level shallower, and fails only when that level is negative |
| XmlFormatter.EndTagIndent | vscode/.vscode/extensions/dotjoshjohnson.xml-2.4.0/out/formatting/formatters/v2-xml-formatter.js:164-178 | an end tag after a line break, after another end tag, or after a self-closing tag is indented, otherwise written plainly; only a negative level fails |
| XmlFormatter.InCData | vscode/.vscode/extensions/dotjoshjohnson.xml-2.4.0/out/formatting/formatters/v2-xml-formatter.js:68-72 | inside CDATA every character but the `]]>` closer is copied as in the final branch; the closer is copied and the walk returns to `Text` |
| XmlFormatter.InComment | vscode/.vscode/extensions/dotjoshjohnson.xml-2.4.0/out/formatting/formatters/v2-xml-formatter.js:77-81 | inside a comment every character but the `-->` closer is copied as in the final branch; the closer is copied and the walk returns to `Text` |
| XmlFormatter.InSpecialTag | vscode/.vscode/extensions/dotjoshjohnson.xml-2.4.0/out/formatting/formatters/v2-xml-formatter.js:86-89 | inside a special tag characters are copied and `>` returns to `Text` |
| XmlFormatter.InStartTag | vscode/.vscode/extensions/dotjoshjohnson.xml-2.4.0/out/formatting/formatters/v2-xml-formatter.js:109-157 | in a start tag a turn consumes one character, keeps the quote, and changes the indent level only at the `>` of a self-closing tag |
| XmlFormatter.AttributeName | vscode/.vscode/extensions/dotjoshjohnson.xml-2.4.0/out/formatting/formatters/v2-xml-formatter.js:113-122 | the first character of an attribute enters `Attribute`, on a new indented line after an attribute value when attributes or xmlns declarations are split |
| XmlFormatter.CloseStartTag | vscode/.vscode/extensions/dotjoshjohnson.xml-2.4.0/out/formatting/formatters/v2-xml-formatter.js:139-157 | `>` returns to `Text` and forgets the last word character; after `/` it lowers the level and adds a newline unless one follows |
| XmlFormatter.InAttribute | vscode/.vscode/extensions/dotjoshjohnson.xml-2.4.0/out/formatting/formatters/v2-xml-formatter.js:123-127 | in an attribute characters are copied, and a quote enters the attribute value |
| XmlFormatter.InAttributeValue | vscode/.vscode/extensions/dotjoshjohnson.xml-2.4.0/out/formatting/formatters/v2-xml-formatter.js:128-132 | in an attribute value characters are copied |
| XmlFormatter.InEndTag | vscode/.vscode/extensions/dotjoshjohnson.xml-2.4.0/out/formatting/formatters/v2-xml-formatter.js:181-185 | in an end tag characters are copied and `>` returns to `Text` |
| XmlFormatter.Steps | vscode/.vscode/extensions/dotjoshjohnson.xml-2.4.0/out/formatting/formatters/v2-xml-formatter.js:52 | stopping at or before the current index leaves the state as it is |
| XmlFormatter.FormatXml | vscode/.vscode/extensions/dotjoshjohnson.xml-2.4.0/out/formatting/formatters/v2-xml-formatter.js:7-201 | the method (sanitise, minify, unsanitise, then the character loop) gives the result of running the turns over the prepared text, or the first range error |
| XmlFormatter.RunStep | vscode/.vscode/extensions/dotjoshjohnson.xml-2.4.0/out/formatting/formatters/v2-xml-formatter.js:52-199 | running from an index is the turn at that index followed by running from where it stops, or its error |
| XmlFormatter.StepSqueeze | vscode/.vscode/extensions/dotjoshjohnson.xml-2.4.0/out/formatting/formatters/v2-xml-formatter.js:52-199 | with a white-space newline every turn appends the characters it consumed plus only white space |
| XmlFormatter.RunSqueeze | vscode/.vscode/extensions/dotjoshjohnson.xml-2.4.0/out/formatting/formatters/v2-xml-formatter.js:52-199 | the loop's output, once white space is deleted, is the prepared text with white space deleted |
| XmlFormatter.FormatOnlyMovesWhiteSpace | vscode/.vscode/extensions/dotjoshjohnson.xml-2.4.0/out/formatting/formatters/v2-xml-formatter.js:7-201 | the formatted text differs from the prepared text only in white space |
| XmlFormatter.FormatKeepsText | vscode/.vscode/extensions/dotjoshjohnson.xml-2.4.0/out/formatting/formatters/v2-xml-formatter.js:7-201 | for a text without `~` whose comment openers are complete, and with a minification that changes nothing, the formatted text differs from the input only in white space |
| XmlFormatter.OpeningTagIndents | vscode/.vscode/extensions/dotjoshjohnson.xml-2.4.0/out/formatting/formatters/v2-xml-formatter.js:90-108 | in `Text` an opening `<` enters `StartTagName` one level deeper unless in mixed content |
| XmlFormatter.EndTagDedents | vscode/.vscode/extensions/dotjoshjohnson.xml-2.4.0/out/formatting/formatters/v2-xml-formatter.js:158-180 | in `Text` `</` enters `EndTag` one level shallower |
| XmlFormatter.StartTagCloseIndent | vscode/.vscode/extensions/dotjoshjohnson.xml-2.4.0/out/formatting/formatters/v2-xml-formatter.js:139-157 | `>` in a start tag returns to `Text`, one level shallower exactly when it closes a self-closing tag |
| XmlFormatter.IndentChangesOnlyAtTags | vscode/.vscode/extensions/dotjoshjohnson.xml-2.4.0/out/formatting/formatters/v2-xml-formatter.js:52-199 | the indent level changes only at the `<` of an opening or end tag in `Text` or at the `>` of a self-closing tag |
| XmlFormatter.EndTagAfterEndTagRaises | vscode/.vscode/extensions/dotjoshjohnson.xml-2.4.0/out/formatting/formatters/v2-xml-formatter.js:158-172 | an end tag that follows another end tag at level 0 makes `repeat` raise a range error for level -1 |
| XmlFormatter.StepKeepsQuote | vscode/.vscode/extensions/dotjoshjohnson.xml-2.4.0/out/formatting/formatters/v2-xml-formatter.js:123-132 | every turn keeps the invariant that inside an attribute value the recorded quote is `"` or `'` |
| XmlFormatter.AttributeValueEndsOnItsQuote | vscode/.vscode/extensions/dotjoshjohnson.xml-2.4.0/out/formatting/formatters/v2-xml-formatter.js:128-132 | an attribute value is left exactly at the quote that opened it, and the quote is then cleared |
| XmlFormatter.VerbatimBody | vscode/.vscode/extensions/dotjoshjohnson.xml-2.4.0/out/formatting/formatters/v2-xml-formatter.js:68-81 | the body of a CDATA section or comment up to its closer is copied unchanged and stays in that location |
| XmlFormatter.VerbatimStep | vscode/.vscode/extensions/dotjoshjohnson.xml-2.4.0/out/formatting/formatters/v2-xml-formatter.js:68-81 | inside CDATA or a comment, a character that does not start the closer is copied as in the final branch |
| XmlFormatter.VerbatimEnd | vscode/.vscode/extensions/dotjoshjohnson.xml-2.4.0/out/formatting/formatters/v2-xml-formatter.js:68-81 | the closer of CDATA or a comment is copied, the walk moves three characters and returns to `Text` |
| XmlFormatter.EnteringTextForgetsWord | vscode/.vscode/extensions/dotjoshjohnson.xml-2.4.0/out/formatting/formatters/v2-xml-formatter.js:45-48 | every turn that enters `Text` from another location forgets the last word character |
| XmlFormatter.RefreshMixedContentFlag | vscode/.vscode/extensions/dotjoshjohnson.xml-2.4.0/out/formatting/formatters/v2-xml-formatter.js:42-44 | the flag becomes true exactly when the last non-text location is a start or end tag and a word character has been seen; nothing else in the state changes |
| XmlFormatterLegacy.Initial | vscode/.vscode/extensions/dotjoshjohnson.xml-2.3.1/out/formatting/formatters/v2-xml-formatter.js:24-29 | the loop starts with empty output at level 0, in `Text`, with `Text` as the last non-text location |
| XmlFormatterLegacy.Leave | vscode/.vscode/extensions/dotjoshjohnson.xml-2.3.1/out/formatting/formatters/v2-xml-formatter.js:50-51 | leaving records the current location as the last non-text one and moves to the new location |
| XmlFormatterLegacy.AddIndent | vscode/.vscode/extensions/dotjoshjohnson.xml-2.3.1/out/formatting/formatters/v2-xml-formatter.js:178-180 | appending the indentation fails with the `repeat` range error exactly when the level is negative, and otherwise appends the text, the indentation and the rest |
| XmlFormatterLegacy.Enter | vscode/.vscode/extensions/dotjoshjohnson.xml-2.3.1/out/formatting/formatters/v2-xml-formatter.js:45 | entering sets only the location, leaving the last non-text location as it was |
| XmlFormatterLegacy.Step | vscode/.vscode/extensions/dotjoshjohnson.xml-2.3.1/out/formatting/formatters/v2-xml-formatter.js:31-172 | one turn of the loop moves forward within the text, and fails only with a negative repeat count |
| XmlFormatterLegacy.Other | vscode/.vscode/extensions/dotjoshjohnson.xml-2.3.1/out/formatting/formatters/v2-xml-formatter.js:163-171 | the final branch copies the character and changes neither location, level nor quote |
| XmlFormatterLegacy.InText | vscode/.vscode/extensions/dotjoshjohnson.xml-2.3.1/out/formatting/formatters/v2-xml-formatter.js:38-157 | in `Text` a turn consumes one character, keeps the last non-text location and the quote, and never enters an attribute value |
| XmlFormatterLegacy.InCData | vscode/.vscode/extensions/dotjoshjohnson.xml-2.3.1/out/formatting/formatters/v2-xml-formatter.js:47-52 | inside CDATA every character but the `]]>` closer is copied as in the final branch; the turn copies what it consumes |
| XmlFormatterLegacy.InComment | vscode/.vscode/extensions/dotjoshjohnson.xml-2.3.1/out/formatting/formatters/v2-xml-formatter.js:57-62 | inside a comment every character but the `-->` closer is copied as in the final branch; the turn copies what it consumes |
| XmlFormatterLegacy.InSpecialTag | vscode/.vscode/extensions/dotjoshjohnson.xml-2.3.1/out/formatting/formatters/v2-xml-formatter.js:67-71 | inside a special tag characters are copied |
| XmlFormatterLegacy.InStartTag | vscode/.vscode/extensions/dotjoshjohnson.xml-2.3.1/out/formatting/formatters/v2-xml-formatter.js:86-135 | in a start tag a turn consumes one character, keeps the quote and does not enter an attribute value |
| XmlFormatterLegacy.AttributeName | vscode/.vscode/extensions/dotjoshjohnson.xml-2.3.1/out/formatting/formatters/v2-xml-formatter.js:91-101 | the first character of an attribute enters `Attribute` and records `StartTag` as the last non-text location |
| XmlFormatterLegacy.CloseStartTag | vscode/.vscode/extensions/dotjoshjohnson.xml-2.3.1/out/formatting/formatters/v2-xml-formatter.js:120-135 | `>` returns to `Text`, records the tag location, and after `/` adds a newline unless one follows |
| XmlFormatterLegacy.InAttribute | vscode/.vscode/extensions/dotjoshjohnson.xml-2.3.1/out/formatting/formatters/v2-xml-formatter.js:102-107 | in an attribute characters are copied |
| XmlFormatterLegacy.InAttributeValue | vscode/.vscode/extensions/dotjoshjohnson.xml-2.3.1/out/formatting/formatters/v2-xml-formatter.js:108-113 | in an attribute value characters are copied |
| XmlFormatterLegacy.InEndTag | vscode/.vscode/extensions/dotjoshjohnson.xml-2.3.1/out/formatting/formatters/v2-xml-formatter.js:158-162 | in an end tag characters are copied |
| XmlFormatterLegacy.Steps | vscode/.vscode/extensions/dotjoshjohnson.xml-2.3.1/out/formatting/formatters/v2-xml-formatter.js:31 | stopping at or before the current index leaves the state as it is |
| XmlFormatterLegacy.FormatXml | vscode/.vscode/extensions/dotjoshjohnson.xml-2.3.1/out/formatting/formatters/v2-xml-formatter.js:7-174 | the method (sanitise, minify, unsanitise, then the character loop) gives the result of running the turns over the prepared text, or the first range error |
| XmlFormatterLegacy.StepSqueeze | vscode/.vscode/extensions/dotjoshjohnson.xml-2.3.1/out/formatting/formatters/v2-xml-formatter.js:31-172 | with a white-space newline every turn appends the characters it consumed plus only white space |
| XmlFormatterLegacy.RunSqueeze | vscode/.vscode/extensions/dotjoshjohnson.xml-2.3.1/out/formatting/formatters/v2-xml-formatter.js:31-172 | the loop's output, once white space is deleted, is the prepared text with white space deleted |
| XmlFormatterLegacy.RunStep | vscode/.vscode/extensions/dotjoshjohnson.xml-2.3.1/out/formatting/formatters/v2-xml-formatter.js:31-172 | running from an index is the turn at that index followed by running from where it stops, or its error |
| XmlFormatterLegacy.FormatOnlyMovesWhiteSpace | vscode/.vscode/extensions/dotjoshjohnson.xml-2.3.1/out/formatting/formatters/v2-xml-formatter.js:7-174 | the formatted text differs from the prepared text only in white space |
| XmlFormatterLegacy.OpeningTagIndents | vscode/.vscode/extensions/dotjoshjohnson.xml-2.3.1/out/formatting/formatters/v2-xml-formatter.js:72-85 | in `Text` an opening `<` succeeds exactly when the level is not negative, and enters `StartTagName` one level deeper |
| XmlFormatterLegacy.EndTagDedents | vscode/.vscode/extensions/dotjoshjohnson.xml-2.3.1/out/formatting/formatters/v2-xml-formatter.js:136-157 | in `Text` `</` enters `EndTag` one level shallower |
| XmlFormatterLegacy.EndTagAfterEndTagOnNewLine | vscode/.vscode/extensions/dotjoshjohnson.xml-2.3.1/out/formatting/formatters/v2-xml-formatter.js:147-149 | an end tag right after another end tag, not after a line break, goes on a new line indented one level shallower, and raises the range error when that level is negative |
| XmlFormatterLegacy.StartTagCloseIndent | vscode/.vscode/extensions/dotjoshjohnson.xml-2.3.1/out/formatting/formatters/v2-xml-formatter.js:120-135 | `>` in a start tag returns to `Text`, one level shallower exactly when it closes a self-closing tag |
| XmlFormatterLegacy.IndentChangesOnlyAtTags | vscode/.vscode/extensions/dotjoshjohnson.xml-2.3.1/out/formatting/formatters/v2-xml-formatter.js:31-172 | the indent level changes only at the `<` of an opening or end tag in `Text` or at the `>` of a self-closing tag |
| XmlFormatterLegacy.LeavingRecordsLocation | vscode/.vscode/extensions/dotjoshjohnson.xml-2.3.1/out/formatting/formatters/v2-xml-formatter.js:31-172 | a turn that leaves a location other than `Text` records it as the last non-text location; otherwise that stays as it was |
| XmlFormatterLegacy.StepKeepsQuote | vscode/.vscode/extensions/dotjoshjohnson.xml-2.3.1/out/formatting/formatters/v2-xml-formatter.js:102-113 | every turn keeps the invariant that inside an attribute value the recorded quote is `"` or `'` |
| XmlFormatterLegacy.AttributeValueEndsOnItsQuote | vscode/.vscode/extensions/dotjoshjohnson.xml-2.3.1/out/formatting/formatters/v2-xml-formatter.js:108-113 | an attribute value is left exactly at the quote that opened it, and the quote is then cleared |
| XmlFormatterLegacy.VerbatimBody | vscode/.vscode/extensions/dotjoshjohnson.xml-2.3.1/out/formatting/formatters/v2-xml-formatter.js:47-62 | the body of a CDATA section or comment up to its closer is copied unchanged and stays in that location |
| XmlFormatterLegacy.VerbatimStep | vscode/.vscode/extensions/dotjoshjohnson.xml-2.3.1/out/formatting/formatters/v2-xml-formatter.js:47-62 | inside CDATA or a comment, a character that does not start the closer is copied as in the final branch |
| XmlFormatterLegacy.VerbatimEnd | vscode/.vscode/extensions/dotjoshjohnson.xml-2.3.1/out/formatting/formatters/v2-xml-formatter.js:47-62 | the closer of CDATA or a comment is copied, the walk moves three characters, returns to `Text` and records that location as the last non-text one |
| XmlText.At | vscode/.vscode/extensions/dotjoshjohnson.xml-2.4.0/out/formatting/formatters/v2-xml-formatter.js:216-218 | `charAt` gives the character at an index inside the text and nothing (the empty string) outside it |
| XmlText.Squeeze | vscode/.vscode/extensions/dotjoshjohnson.xml-2.4.0/out/formatting/formatters/v2-xml-formatter.js:7-200 | the text with white space deleted, the view in which the formatter's output is compared with its input, is no longer than the text and holds no white space |
| XmlText.SqueezeAppend | vscode/.vscode/extensions/dotjoshjohnson.xml-2.4.0/out/formatting/formatters/v2-xml-formatter.js:7-200 | deleting white space from two joined texts is the same as deleting it from each |
| XmlText.SqueezeAllWhite | vscode/.vscode/extensions/dotjoshjohnson.xml-2.4.0/out/formatting/formatters/v2-xml-formatter.js:7-200 | a text is all white space exactly when nothing is left of it once white space is deleted |
| XmlText.TrimTrailingBlank | vscode/.vscode/extensions/dotjoshjohnson.xml-2.4.0/out/formatting/formatters/v2-xml-formatter.js:208-210 | the result is a prefix of the text, what is cut is white space other than line breaks, and what is left does not end in such white space |
| XmlText.TrimTrailingBlankSqueeze | vscode/.vscode/extensions/dotjoshjohnson.xml-2.4.0/out/formatting/formatters/v2-xml-formatter.js:208-210 | trimming trailing blanks deletes only white space |
| XmlText.IndentUnit | vscode/.vscode/extensions/dotjoshjohnson.xml-2.4.0/out/formatting/formatters/v2-xml-formatter.js:206 | one indentation unit is `tabSize` spaces when spaces are inserted and one tab otherwise |
| XmlText.Spaces | vscode/.vscode/extensions/dotjoshjohnson.xml-2.4.0/out/formatting/formatters/v2-xml-formatter.js:206 | `n` spaces |
| XmlText.Indent | vscode/.vscode/extensions/dotjoshjohnson.xml-2.4.0/out/formatting/formatters/v2-xml-formatter.js:205-207 | a negative level raises the `repeat` range error; otherwise the indentation is all white space, `level` units long, and all tabs when spaces are not inserted |
| XmlText.SanitizeComments | vscode/.vscode/extensions/dotjoshjohnson.xml-2.4.0/out/formatting/formatters/v2-xml-formatter.js:211-237 | the loop gives `Sanitized` of the text outside any comment |
| XmlText.SanitizedAt | vscode/.vscode/extensions/dotjoshjohnson.xml-2.4.0/out/formatting/formatters/v2-xml-formatter.js:219-234 | one step of the loop: `<!-` outside a comment writes `<!--` and skips four characters, `<` inside a comment writes the marker, `-->` inside a comment writes itself and leaves the comment, anything else is copied |
| XmlText.SanitizeRoundTrip | vscode/.vscode/extensions/dotjoshjohnson.xml-2.4.0/out/formatting/formatters/v2-xml-formatter.js:211-240 | unsanitising a sanitised text gives it back, for a text without `~` whose every `<!-` starts a `<!--` |
| XmlText.MagicCollision | vscode/.vscode/extensions/dotjoshjohnson.xml-2.4.0/out/formatting/formatters/v2-xml-formatter.js:4 | `<!--~::~MAAAGIC~::<-->` holds no marker and every `<!-` in it starts `<!--`, yet unsanitising its sanitised form does not give it back |
| XmlText.SanitizeNoComment | vscode/.vscode/extensions/dotjoshjohnson.xml-2.4.0/out/formatting/formatters/v2-xml-formatter.js:211-237 | a text without `<!-` is left unchanged by the sanitiser |
| XmlText.SanitizeChangesOnlyLt | vscode/.vscode/extensions/dotjoshjohnson.xml-2.4.0/out/formatting/formatters/v2-xml-formatter.js:219-234 | when every `<!-` starts `<!--`, the sanitiser changes the text only by replacing some `<` by the marker |
| XmlText.SanitizeOverwritesFourth | vscode/.vscode/extensions/dotjoshjohnson.xml-2.4.0/out/formatting/formatters/v2-xml-formatter.js:219-222 | `<!-` followed by any fourth character is written as `<!--`: the fourth character is dropped |
| XmlText.SanitizeCommentBody | vscode/.vscode/extensions/dotjoshjohnson.xml-2.4.0/out/formatting/formatters/v2-xml-formatter.js:224-230 | a comment body up to its first `-->` has every `<` hidden behind the marker, and sanitising goes on outside the comment |
| XmlText.Hide | vscode/.vscode/extensions/dotjoshjohnson.xml-2.4.0/out/formatting/formatters/v2-xml-formatter.js:224-226 | hiding replaces every `<` by the marker and nothing else, so no `<` is left |
| XmlText.SanitizedLength | vscode/.vscode/extensions/dotjoshjohnson.xml-2.4.0/out/formatting/formatters/v2-xml-formatter.js:211-237 | the sanitised text is never shorter than the input, since every `<` inside a comment becomes the longer marker |
| XmlText.UnsanitizedLength | vscode/.vscode/extensions/dotjoshjohnson.xml-2.4.0/out/formatting/formatters/v2-xml-formatter.js:238-240 | replacing the marker by `<` never lengthens the text |

## Left out

**General**
- Strings are sequences of Unicode scalar values, not of UTF-16 code units. A character outside the Basic Multilingual Plane counts as one element, where JavaScript counts two.
- JavaScript numbers are modelled as unbounded integers. Floating point, `NaN` and fractional positions are not modelled.
- JsString.ToLower: folds only the letters `A`-`Z`. JavaScript's `toLowerCase` folds all of Unicode and can change the length of a string ('İ' becomes two code units). The same holds for Python's `lower()` in `UniProps.FormatName`.
- JsString.LexLe: orders strings by code point and stands in for `localeCompare`, whose order depends on the host's locale.
- I/O, process spawning, the network, timers, promises and telemetry are not modelled. The editors' UI and API adapters are not modelled either.

**Backrefs**
- Backrefs: the search translator (`_bre_parse`/`_bregex_parse`), the replace parser, Python's `hash` and the template expansion are parameters, collected in `Host`. The matching done by `re` and `regex` is not modelled.
- Flag words are modelled as the set of flags they hold, not as integers.
- `functools.lru_cache` is modelled as a sequence ordered from least to most recently used (`Backrefs.Touch`). Its hashing and its thread safety are not modelled.
- Patterns given with `DEBUG` bypass the caches, as in the source. The debug printing itself is not modelled.
- `re` adding `UNICODE` to a text pattern on its own, and the extra `**kwargs` that `bregex` passes through to `regex`, are not modelled.
- The `Bre`/`Bregex` property accessors, the methods that only pass through to the compiled pattern, and `__repr__` are not modelled.
- Backrefs.HostSubChecked: models one check of the host's `sub` and `subn`, the `ValueError` for non-zero flags beside an already compiled pattern. The host's other argument errors are not modelled: too many positional arguments, flags given both by position and by keyword, and an unknown keyword (each a `TypeError`).
- Backrefs.WrapperSubCall: hands the forwarded arguments to the compiled pattern's own method. That method's checks on them (a `count` or `pos` of the wrong type) belong to the host and are not modelled.

**unipropgen.py**
- Reading the UCD files, writing the generated modules, the command line and `sys.maxunicode` are left out. The largest code point is the parameter `maxrange`.
- Tables are values: an operation that updates a dict in place returns its new contents. The order that `list(set(...))` produces is left open.
- UniRanges.ListRanges: requires a list without repeated code points when inverting. For a list with repeats, the source's complement text overlaps the run text, and the model does not state what it is.
- UniProps.FormatNameIdempotent: holds only under its requires `forall i :: 0 <= i < |text| ==> IsPySpace(text[i]) ==> text[i] == ' '`, that is, for names whose only white space is the plain space. `UniProps.FormatNameNotIdempotent` shows a name for which a second pass changes the result.
- UniProps.GenUPosix: a missing table key is an error result. The partial writes the source has made to `posix_table` before its `KeyError` are not kept.

**C# extension**
- RequestQueue: `makeRequest` and the command classification of `prioritization.js` are parameters. The event stream and the request start times are not modelled.
- Platform.FromReleaseInfo: takes the line separator as a parameter and requires it to be non-empty. The source defaults it to `os.EOL`, which is never empty.
- The os-release reads and the `process.platform`/`process.arch` probes are not modelled: their results are inputs.
- Diagnostics: `server.isRunning()` is a parameter, and the validation timers and cancellation are not modelled.
- Diagnostics.Advisor.OnPackageRestore: as in the source, the counter is not bounded below, so it can go negative.
- Assets.GetBuildTasks: takes a typed `TasksConfiguration`. Three inputs raise a `TypeError` in the source and are not modelled: a `tasks.json` that parses to `null`, a truthy `tasks` that is not an array, and a `null` task entry (assets.js 1.17.1, lines 257-306).
- ProcessPicker:
  - the file-system check in `ValidateAndFixPipeProgram` (its `System32` to `sysnative` rewrite) is not modelled, so `ProcessPicker.CreatePipeCmd` takes the already-fixed program;
  - running the `ps`/`wmic` commands, their command strings and the quick-pick UI are not modelled;
  - the `ps` line regular expression is written out as an explicit scan.
- Launcher:
  - `Launcher.SortByDirectory` is a stable sort, as `Array.prototype.sort` is from V8 7.0 on. Older V8 versions sorted arrays of more than 10 elements with an unstable QuickSort, and there targets sharing a directory may come out in another order;
  - `Launcher.IsProjectJson` models the loose suffix regular expression `/\project.json$/i`;
  - spawning OmniSharp, `monoVersion`/`monoPath` detection, and the `args.push` that changes the caller's array are not modelled: the model returns the new argument list.
- OptionsSchema.ReplaceReferences: is bounded by a fuel parameter and returns an error when the fuel runs out. A `$ref` cycle, which would never terminate in the source, is not modelled.
- OptionsSchema.Entries: gives the error `Unmodelled` for a `for..in` over the indices of an array or a string. `OptionsSchema.HasKey` does the same for `in` on an array or for an inherited name, and `OptionsSchema.ResolvedRef` for a `$ref` that names an inherited property. The model does not say what the source computes in those cases.
- OptionsSchema.Entries: visits keys in insertion order. JavaScript's `for..in` visits integer-like keys first, in ascending numeric order, and then the others in insertion order. So for objects with integer-like keys the order of `OptionsSchema.Entries`, `OptionsSchema.MergedDefaults` and `OptionsSchema.Appended` differs from the source; the set of keys and their values do not.
- The aliasing between the `definitions` object and the objects being resolved is not modelled: objects are values.
- JSON completion: the JSON location and the contributed suggestions are inputs. The NuGet requests of `projectJSONContribution.js` are not modelled.
- CodeLensLegacy.ConvertQuickFix: visits the member tree in a fixed pre-order. The source does not await the calls for a node's children but does await `requestProjectInformation`, so a nested class's test lenses can be pushed after the lenses of its outer class's later siblings.
- CodeLensLegacy.GetTestFeatureAndFramework: a child node with no `Features` makes the source throw a `TypeError`. The model treats it as a node without test features and gives `(None, None)`.
- The async resolution of code lenses by server calls is not modelled.

**Other extensions**
- TslintServer: `document.positionAt` is a parameter. The language-server connection and the linter run are not modelled.
- TslintServer.SortBy: is a stable insertion sort, as `Array.prototype.sort` is from V8 7.0 on. Older V8 versions sorted arrays of more than 10 elements with an unstable QuickSort. Under those versions, and with the comparator as written always answering 0, more than 10 fixes can come out in another order. `TslintServer.SortFixesAsWrittenKeepsOrder` then holds only for at most 10 fixes.
- DockerDebug: Node's `path` functions are parameters. The asynchronous prerequisite checks, `inferAppProject`, `inferAppOutput` and the Docker manager are not modelled.
- DockerDebug.ResolveFolderPath: inserts the folder path literally. The source's `String.prototype.replace` would expand `$$`, `$&`, `` $` `` and `$'` sequences that appear in the folder path.
- DockerDebug.DefaultTagIsLowerCase: holds because `ToLower` keeps the length. With full Unicode lower-casing, an application name holding 'İ' gives a longer tag.
- AcrTools: the HTTP and token calls are not modelled.
- XmlFormatter: the minification regular expressions are the parameter `minify`.
- XmlFormatter.FormatKeepsText: requires `forall t :: minify(t) == t`, that is, a minification that changes no text. Minification that only changes white space is not enough by itself: white space it inserts inside a sanitising marker would stop that marker from being unsanitised.
- XmlText.SanitizeRoundTrip: requires the text to hold no `~` and every `<!-` in it to start a `<!--`. This is stronger than requiring only that the text hold no marker string: `XmlText.MagicCollision` shows a text that holds no marker and still does not round-trip (see "Findings").
- The 2.3.1 sanitise and unsanitise helpers are the same as in 2.4.0, and `XmlText` cites 2.4.0.
- ExcepthookChain.Chain.Add: the invariant `Valid` is proved only when no other name holds the same callback, because it requires the list to hold no callback twice. The source accepts one callback under two names: `add("a", f)` and then `add("b", f)` leave the list `[f, f]`. The list and the dict then still agree as multisets, but the model states nothing about such a chain beyond the list and dict updates of `Add`.
- ExcepthookChain.Chain.Hook: calls every callback in turn. In the source, a callback that raises stops the loop, and the later callbacks are not called.

## Findings

| source | as written | input that shows it | evidently intended | confidence | as-written member | corrected member |
|---|---|---|---|---|---|---|
| vscode/.vscode/extensions/eg2.tslint-1.0.33/server/tslintServer.js:747-768 | `sortFixes` compares `Position` objects with `<` and `>`. These are always false, so the sort keeps the input order. | two fixes on lines 3 and 1, in that order: "fix all" keeps only the first and reports an overlap | sort by the start of the first edit, then select | not executed | TslintServer.UnsortedFixesDropped | TslintServer.SortFixesSorted |
| vscode/.vscode/extensions/ms-vscode.csharp-1.16.2/out/src/features/processPicker.js:131 | the string pipe command always quotes the program, even with `quoteArgs` false | program `my ssh`, `quoteArgs` false | quote the program only when `quoteArgs` holds, as the array form does | not executed | ProcessPicker.ProgramQuotedDespiteQuoteArgs | ProcessPicker.StringAndArrayAgree |
| vscode/.vscode/extensions/ms-vscode.csharp-1.15.2/out/src/tools/GenerateOptionsSchema.js:75 | the duplicate-definition test `base[key]` is true for names inherited from `Object.prototype` | an additional definition named `constructor` over an empty base is reported as defined twice | test own properties only | not executed | OptionsSchema.InheritedNameReported | OptionsSchema.InheritedNameAccepted |
| vscode/.vscode/extensions/ms-vscode.csharp-1.17.1/out/src/assets.js:245-247 | `hasAddOperations` tests `addLaunchJson` twice and never looks at `addTasksJson` | `launch.json` present, `tasks.json` missing: nothing is offered | offer the assets when either file is missing | not executed | Assets.MissingTasksJsonIgnored | Assets.AssetsOfferedIffMissing |
| vscode/.vscode/extensions/ms-vscode.csharp-1.16.2/out/src/features/json/jsonContributions.js:87 | the seen-label lookup on a plain object is true for `Object.prototype` names | a suggestion labelled `constructor` is dropped | keep the first suggestion for every label | not executed | JsonContributions.PrototypeLabelDropped | JsonContributions.KeptAsWrittenAgrees |
| vscode/.vscode/extensions/ms-vscode.csharp-1.17.1/out/src/features/codeLensProvider.js:189 | `filteredSymbolNames[element.Name]` is true for `Object.prototype` names | a method named `toString` gets no references lens | filter only Equals, Finalize, GetHashCode and ToString | not executed | CodeLens.PrototypeNameHidesReferences | CodeLens.ReferencesFilterAgrees |
| vscode/.vscode/extensions/ms-vscode.csharp-1.15.2/out/src/features/codeLensProvider.js:52 | the filtered-method lookup is true for `Object.prototype` names, and a filtered node's subtree is skipped | a method named `valueOf` and everything under it gets no lens | filter only the four listed method names | not executed | CodeLensLegacy.PrototypeMethodSubtreeDropped | CodeLensLegacy.IsFilteredMethod |
| sublime/Packages/backrefs/st3/backrefs/bre.py:376-416 | the module functions read `flags` for the translator at `args[2]` (`args[3]` for `split`), past the host's own flags argument | `bre.search(p, s, VERBOSE)`: the translator sees no flags | read the flags at the host's own position | not executed | Backrefs.PositionalFlagsIgnored | Backrefs.IntendedFlagsReachTranslator |
| vscode/.vscode/extensions/dotjoshjohnson.xml-2.4.0/out/formatting/formatters/v2-xml-formatter.js:4 | the comment sanitiser's marker can be produced from text that holds no marker | `<!--~::~MAAAGIC~::<-->` does not survive sanitising and unsanitising | a text without the marker round-trips | not executed | XmlText.MagicCollision | XmlText.SanitizeRoundTrip |
