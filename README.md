# Regex Radar, modelled in Dafny

Regex Radar is a language server with a VS Code extension. It finds the regular expressions in
JavaScript and TypeScript sources. It reports them as a tree of entries:
workspace → directory → file → regex.

The server flags regular expressions in two ways:
- `RegExp(...)` called as a function, with a quick fix to `new RegExp(...)`.
- Patterns open to ReDoS, with a cached verdict per pattern and flags.

It also serves code lenses that reveal a regular expression in the Regex Explorer.

The extension shows an inspector tree of the selected regular expression's AST and its flags. It
opens a regular expression in RegExr or regex101, and turns the server's log lines into leveled log
calls.

This project models that core as Dafny values, functions, classes and methods, and proves what the
code promises about them. One module corresponds to each source file:

- `Wrappers` — Option and Result.
- `Lsp` — the Language Server Protocol 3.17 structures used.
- `Json` — JSON values and JavaScript truthiness.
- `RegexMatches` and `Discovery` — the protocol's match and entry unions.
- `LegacyEntries` — the older entry shape.
- `TreeView` — the tree-view request.
- `Documents` — document lookup.
- `RangeUtil` — `isInRange`.
- `Handlers` — `runHandlers`, one method with loops and invariants, reused by the code-action and
  code-lens handlers.
- `Linter` and `RedosDiagnostics` — the two diagnostic producers.
- `RedosService` — the ReDoS check cache, a class.
- `PreferNewExpression` — the quick fix.
- `CodeActions` and `CodeLenses` — the message handlers, classes.
- `RevealLens` — the reveal code lens.
- `Configuration` — the configuration store, a class.
- `Lifecycle` — the lifecycle handler, a class.
- `Parsers` — the parser provider, a class.
- `InspectorEntries`, `InspectorView` and `LegacyInspectorView` — the inspector trees.
- `ExternalTool` — the external-tool links.
- `ClientLog` — the output-channel adapter and the client singleton.

Some inputs come from places the model does not contain: promises, the discovery service, the file
system, `encodeURIComponent`, the `LogLevel` name lookup and the regex AST service. Each becomes a
parameter: an outcome value, an `Option` result, a tree value or a function argument.

## Model

| member | source | states |
|---|---|---|
| RegexMatches.MatchTypeCode | packages/protocol/src/regex.ts:5-11 | match types are numbered 0..4 |
| RegexMatches.MatchTypeFromCode | packages/protocol/src/regex.ts:5-11 | a number names a match type exactly when it is at most 4 |
| RegexMatches.MatchTypeCodeRoundTrip | packages/protocol/src/regex.ts:5-11 | numbering and lookup are inverse both ways |
| RegexMatches.TypeOf | packages/protocol/src/regex.ts:3-39 | every match has a tag other than Unknown; it is String exactly for string matches |
| RegexMatches.FlagsOf | packages/protocol/src/regex.ts:18-39 | flags are present exactly on Literal, Constructor and Function matches |
| RegexMatches.EveryTagButUnknownHasAVariant | packages/protocol/src/regex.ts:3 | the union has a variant for every tag except Unknown, and none for Unknown |
| Discovery.EntryTypeCode | packages/protocol/src/discovery.ts:15-21 | entry types are numbered 0..4, with 0 for Unknown only |
| Discovery.EntryTypeCodeInjective | packages/protocol/src/discovery.ts:15-21 | distinct entry types have distinct numbers |
| Discovery.TypeOf | packages/protocol/src/discovery.ts:23-50 | no entry has type Unknown |
| Discovery.ParentUri | packages/protocol/src/discovery.ts:25-30 | a workspace entry never has a parent uri |
| Discovery.FileResultMatchesFileHint | packages/protocol/src/discovery.ts:9 | a discovered file, or null, is a valid result for a File request |
| LegacyEntries.EntryTypeCode | packages/lsp-types/src/index.ts:3-9 | the older entry types are numbered 0..4, with 0 for the misspelt unknown tag |
| LegacyEntries.EntryTypeCodeInjective | packages/lsp-types/src/index.ts:3-9 | distinct older entry types have distinct numbers |
| LegacyEntries.TypeOf | packages/lsp-types/src/index.ts:11-38 | no older entry has the unknown type |
| RangeUtil.IsInRange | packages/server/src/util/range.ts:7-14 | four inclusive comparisons, start line and column not before, end line and column not after; its order properties are the three lemmas below |
| RangeUtil.IsInRangeReflexive | packages/server/src/util/range.ts:7-14 | every range is in itself |
| RangeUtil.IsInRangeTransitive | packages/server/src/util/range.ts:7-14 | being in a range is transitive |
| RangeUtil.IsInRangeAntisymmetric | packages/server/src/util/range.ts:7-14 | two ranges each in the other are equal |
| RangeUtil.ColumnsComparedAcrossLines | packages/server/src/util/range.ts:9-10 | a range on a middle line is rejected when its column is left of the outer start column |
| Documents.LastIndexOf | packages/server/src/documents.ts:43 | the index of the last occurrence, or -1 when there is none |
| Documents.Basename | packages/server/src/documents.ts:43 | the base name holds no separator |
| Documents.Extname | packages/server/src/documents.ts:43 | the extension is empty or a dot followed by neither separators nor dots |
| Documents.LanguageIdFor | packages/server/src/documents.ts:43-44 | the mapped language of the extension, never empty, with plaintext as the fallback |
| Documents.Get | packages/server/src/documents.ts:36-51 | an open document is returned as it is; otherwise the disk contents under the uri at version 0, or an error when unreadable |
| Documents.OpenBufferIgnoresDisk | packages/server/src/documents.ts:37-50 | for an open document the disk contents do not matter |
| Documents.ClosedFileReflectsDisk | packages/server/src/documents.ts:42-47 | for a closed file, different disk contents give different documents, so nothing is cached |
| Documents.ExtnameIsFromLastDot | packages/server/src/documents.ts:43 | `dir/stem.ext` has extension `.ext` |
| Documents.HiddenFileHasNoExtension | packages/server/src/documents.ts:43 | `dir/.name` has no extension |
| TreeView.Join | packages/server/src/tree-view/index.ts:61-66 | a child uri is its directory's uri, a `/`, then the item name, with no normalisation |
| TreeView.RegexEntries | packages/server/src/tree-view/index.ts:89-98 | one regex entry per parsed match, in order, copying pattern and flags, located in the file |
| TreeView.BuildFile | packages/server/src/tree-view/index.ts:79-100 | a file builds exactly when it is open or readable, as a file entry with its uri |
| TreeView.BuildDirectory | packages/server/src/tree-view/index.ts:50-77 | a directory builds only when listable, as a directory entry with its uri |
| TreeView.BuildChildren | packages/server/src/tree-view/index.ts:56-71 | built children are never more than the listing items |
| TreeView.BuildItem | packages/server/src/tree-view/index.ts:59-68 | only items that are neither file nor directory give nothing; a built item lies at the joined uri |
| TreeView.BuildWorkspace | packages/server/src/tree-view/index.ts:39-48 | builds exactly when the directory build does, as a workspace entry with its uri |
| TreeView.GetTreeViewChildren | packages/server/src/tree-view/index.ts:20-34 | at most one entry, at the requested uri |
| TreeView.Kept | packages/server/src/tree-view/index.ts:59-71 | listing items that are neither file nor directory are dropped |
| TreeView.BuildFileShape | packages/server/src/tree-view/index.ts:84-99 | a built file holds exactly one regex per parser match, even none |
| TreeView.BuildFileFails | packages/server/src/tree-view/index.ts:84 | an unreadable closed file fails the build |
| TreeView.BuildChildrenFollowsListing | packages/server/src/tree-view/index.ts:57-71 | directory children follow the listing order of files and directories: the i-th child is the build of the i-th kept item |
| TreeView.ChildFailureFailsDirectory | packages/server/src/tree-view/index.ts:56-70 | one failing child fails the whole directory |
| TreeView.AllItemsBuildThenDirectoryBuilds | packages/server/src/tree-view/index.ts:56-76 | when every child builds, the directory builds |
| TreeView.BuildIsWellFormed | packages/server/src/tree-view/index.ts:57-76 | built directory children are well-formed directory or file entries |
| TreeView.BuildItemIsWellFormed | packages/server/src/tree-view/index.ts:59-68 | a built listing item is a well-formed directory or file entry |
| TreeView.WorkspaceIsRetypedDirectory | packages/server/src/tree-view/index.ts:39-48 | a workspace build is the directory build with only its type changed |
| TreeView.GetTreeViewChildrenShape | packages/server/src/tree-view/index.ts:20-34 | one entry for workspace, directory and file requests; none for other types |
| Handlers.Aggregate | packages/server/src/util/handlers.ts:19-53 | the specification `RunHandlers` is proved against: sync results of the invoked handlers, then the fulfilled async ones unless cancelled; characterised by the lemmas below |
| Handlers.InvokedCount | packages/server/src/util/handlers.ts:23-26 | handlers run up to the first point where cancellation is seen |
| Handlers.RunHandlers | packages/server/src/util/handlers.ts:12-54 | the loop's result equals the aggregate specification |
| Handlers.SyncItemsAppend | packages/server/src/util/handlers.ts:27-34 | sync results of consecutive handlers concatenate |
| Handlers.PendingOfAppend | packages/server/src/util/handlers.ts:27-34 | pending results of consecutive handlers concatenate |
| Handlers.NoHandlersNoResults | packages/server/src/util/handlers.ts:19-20 | no handlers give no results |
| Handlers.UncancelledAggregate | packages/server/src/util/handlers.ts:23-50 | without cancellation: all sync results, then the fulfilled async results |
| Handlers.SyncResultsComeFirst | packages/server/src/util/handlers.ts:40-50 | the result starts with the sync results of the handlers that ran |
| Handlers.ThrowingHandlerIsSkipped | packages/server/src/util/handlers.ts:35-37 | a throwing handler contributes nothing and later handlers still run |
| Handlers.CancellationStopsInvocation | packages/server/src/util/handlers.ts:24-26 | cancellation seen before handler c leaves only the sync results of the first c |
| Handlers.CancelledWhileWaiting | packages/server/src/util/handlers.ts:40-42 | cancellation during the wait discards every pending result |
| Handlers.RejectedContributeNothing | packages/server/src/util/handlers.ts:43-49 | a rejected async result is skipped |
| Linter.Lint | packages/server/src/diagnostics/handlers/linter.ts:33-44 | no more diagnostics than entries; each comes from a function-call match; none exactly when no entry is a function call |
| Linter.OnDocumentDiagnostic | packages/server/src/diagnostics/handlers/linter.ts:25-45 | empty on no discovery or cancellation; every diagnostic is a Warning from `regex-radar` with code `prefer-regex-new-expression` |
| Linter.LintAppend | packages/server/src/diagnostics/handlers/linter.ts:33-44 | diagnostics follow the order of the entries |
| Linter.LintSingle | packages/server/src/diagnostics/handlers/linter.ts:34-42 | one entry yields one diagnostic exactly when it is a function call |
| Linter.EveryFunctionCallReported | packages/server/src/diagnostics/handlers/linter.ts:33-44 | every function-call entry is reported |
| RedosDiagnostics.Classify | packages/server/src/diagnostics/handlers/redos/index.ts:45-70 | exponential gives an Error `redos-exponential`, polynomial a Warning `redos-polynomial`, anything else nothing |
| RedosDiagnostics.Collect | packages/server/src/diagnostics/handlers/redos/index.ts:44-72 | at most one diagnostic per entry, with the entry's range and the verdict as data |
| RedosDiagnostics.OnDocumentDiagnostic | packages/server/src/diagnostics/handlers/redos/index.ts:30-74 | empty when the linter is disabled, on cancellation before or after discovery, or without a file |
| RedosDiagnostics.CollectAppend | packages/server/src/diagnostics/handlers/redos/index.ts:44-72 | diagnostics keep entry order |
| RedosDiagnostics.CollectSingle | packages/server/src/diagnostics/handlers/redos/index.ts:45-70 | one entry yields exactly its classification |
| RedosDiagnostics.SafeFileHasNoDiagnostics | packages/server/src/diagnostics/handlers/redos/index.ts:45-70 | no vulnerable entry means no diagnostic |
| RedosService.ParamOf | packages/server/src/diagnostics/handlers/redos/index.ts:45 | the check parameter carries the match's pattern and its flags when it has them |
| RedosService.Interpolate | packages/server/src/redos/service.ts:38 | a template literal prints an absent value as `undefined` |
| RedosService.Key | packages/server/src/redos/service.ts:38 | the key is `/`, the pattern, `/`, then the flags as interpolated |
| RedosService.RedosCheckService.constructor | packages/server/src/redos/service.ts:33-35 | the cache starts empty, with no check function |
| RedosService.RedosCheckService.GetCheck | packages/server/src/redos/service.ts:67-73 | the check function is created once and reused |
| RedosService.RedosCheckService.Check | packages/server/src/redos/service.ts:37-65 | a hit answers synchronously with the cached result; a miss is pending, passing the flags or `''` |
| RedosService.RedosCheckService.CompleteCheck | packages/server/src/redos/service.ts:50-60 | the completed result is stored under the key and nothing is removed |
| RedosService.CheckAfterCompletion | packages/server/src/redos/service.ts:37-62 | after a completed miss, the same check is a hit with that result |
| RedosService.AbsentFlagsCollideWithUndefined | packages/server/src/redos/service.ts:38 | absent flags and the flags string `undefined` share a key |
| RedosService.KeyInjective | packages/server/src/redos/service.ts:38 | with flags present and free of `/`, distinct parameters have distinct keys |
| PreferNewExpression.CreateCodeAction | packages/server/src/code-actions/diagnostics/prefer-regex-new-expression.ts:20-40 | a preferred quick fix with the fixed title, for exactly its diagnostic, inserting `new ` at the diagnostic's start in the document |
| PreferNewExpression.OnCodeAction | packages/server/src/code-actions/diagnostics/prefer-regex-new-expression.ts:12-17 | one action per prefer-new diagnostic of the request, each its fix |
| PreferNewExpression.FixAll | packages/server/src/code-actions/diagnostics/prefer-regex-new-expression.ts:13-16 | no more actions than diagnostics |
| PreferNewExpression.FixAllSound | packages/server/src/code-actions/diagnostics/prefer-regex-new-expression.ts:13-16 | every action fixes a prefer-new diagnostic of the input |
| PreferNewExpression.FixAllAppend | packages/server/src/code-actions/diagnostics/prefer-regex-new-expression.ts:13-16 | actions follow diagnostic order |
| PreferNewExpression.FixSingle | packages/server/src/code-actions/diagnostics/prefer-regex-new-expression.ts:13-16 | a diagnostic gets a fix exactly when its code is `prefer-regex-new-expression` |
| PreferNewExpression.EveryLintHasAFix | packages/server/src/code-actions/diagnostics/prefer-regex-new-expression.ts:13-16 | every linter diagnostic gets exactly one fix |
| PreferNewExpression.AllPreferNewKept | packages/server/src/code-actions/diagnostics/prefer-regex-new-expression.ts:13-16 | when all diagnostics are prefer-new, none is dropped |
| RevealLens.OnCodeLens | packages/server/src/code-lens/handlers/reveal-in-regex-explorer.ts:18-37 | discovery is asked for the document uri with the File hint; no lenses without a file; otherwise one resolved reveal lens per regex, in order, with its range and the entry as argument |
| RevealLens.OnlyTheDocumentsFileIsDiscovered | packages/server/src/code-lens/handlers/reveal-in-regex-explorer.ts:19-22 | the lenses depend only on discovery's answer for the document with the File hint |
| CodeActions.KindIntersects | packages/server/src/code-actions/message-handler.ts:193-195 | true exactly when some kind of the first list starts with some kind of the second; false if either is empty |
| CodeActions.StartsWithAny | packages/server/src/code-actions/message-handler.ts:194 | a kind is requested exactly when it starts with a requested kind |
| CodeActions.Unique | packages/server/src/code-actions/message-handler.ts:85-88 | the same kinds, without duplicates |
| CodeActions.FilterAccepted | packages/server/src/code-actions/message-handler.ts:72-79 | handlers are kept exactly when their kinds intersect the client's and resolve support allows them |
| CodeActions.FilterAcceptedAppend | packages/server/src/code-actions/message-handler.ts:72-79 | the registration filter keeps handler order over any split of the handlers |
| CodeActions.FilterAcceptedSingle | packages/server/src/code-actions/message-handler.ts:72-79 | one handler is kept, once, exactly when it is accepted |
| CodeActions.FilterByKinds | packages/server/src/code-actions/message-handler.ts:124-129 | handlers are kept exactly when their kinds intersect `only` |
| CodeActions.FilterByKindsAppend | packages/server/src/code-actions/message-handler.ts:124-129 | the request filter keeps handler order over any split of the handlers |
| CodeActions.FilterByKindsSingle | packages/server/src/code-actions/message-handler.ts:124-129 | one handler is kept, once, exactly when its kinds intersect `only` |
| CodeActions.AllKinds | packages/server/src/code-actions/message-handler.ts:85-87 | every kind of every handler, and nothing else |
| CodeActions.RegistrationFor | packages/server/src/code-actions/message-handler.ts:85-114 | the duplicate-free union of kept kinds; resolve provider present exactly with client resolve support, true when resolvers exist; work-done progress as the client allows |
| CodeActions.EnsureDiagnostics | packages/server/src/code-actions/message-handler.ts:177-186 | supplied diagnostics win; otherwise the full report's items in the request range; otherwise none |
| CodeActions.InRange | packages/server/src/code-actions/message-handler.ts:183 | exactly the items in the range, in order |
| CodeActions.InRangeAppend | packages/server/src/code-actions/message-handler.ts:183 | the range filter keeps the report's order over any split of the items |
| CodeActions.InRangeSingle | packages/server/src/code-actions/message-handler.ts:183 | one item is kept, once, exactly when its range is in the request range |
| CodeActions.Selected | packages/server/src/code-actions/message-handler.ts:124-129 | all handlers without `only`; otherwise those whose kinds intersect it |
| CodeActions.Outcomes | packages/server/src/code-actions/message-handler.ts:139-167 | each handler is called with the request |
| CodeActions.WithDiagnostics | packages/server/src/code-actions/message-handler.ts:133-137 | the request with its diagnostics replaced by the ensured ones |
| CodeActions.Response | packages/server/src/code-actions/message-handler.ts:117-170 | the response: nothing without selected handlers, else the aggregate of their outcomes on the request with ensured diagnostics (the specification `OnCodeAction` is proved against) |
| CodeActions.CodeActionMessageHandler.constructor | packages/server/src/code-actions/message-handler.ts:50-57 | no handlers and no registrations |
| CodeActions.CodeActionMessageHandler.OnInitialized | packages/server/src/code-actions/message-handler.ts:59-115 | nothing registered without dynamic registration and literal support; otherwise the kept handlers and resolvers, registered when some exist |
| CodeActions.CodeActionMessageHandler.OnCodeAction | packages/server/src/code-actions/message-handler.ts:117-170 | the response: empty when `only` selects no handler, else the handlers aggregated as `runHandlers` does |
| CodeActions.CodeActionMessageHandler.OnCodeActionResolve | packages/server/src/code-actions/message-handler.ts:172-175 | the action is returned unchanged |
| CodeActions.EmptyOnlyYieldsNothing | packages/server/src/code-actions/message-handler.ts:124-132 | an empty `only` list gives no actions |
| CodeActions.KeptHandlersServeRequestedKinds | packages/server/src/code-actions/message-handler.ts:72-79 | every kept handler has a kind under a client-supported kind |
| CodeActions.ResolveRequiringHandlersDropped | packages/server/src/code-actions/message-handler.ts:72-79 | without client resolve support, no kept handler requires it |
| CodeActions.KindIntersectsIsByPrefix | packages/server/src/code-actions/message-handler.ts:193-195 | `refactor.extract` matches `refactor`, not the other way round |
| CodeActions.SuppliedDiagnosticsWin | packages/server/src/code-actions/message-handler.ts:177-181 | with supplied diagnostics the report does not matter |
| CodeLenses.Outcomes | packages/server/src/code-lens/message-handler.ts:99-134 | each handler is called with the document uri |
| CodeLenses.CodeLensMessageHandler.constructor | packages/server/src/code-lens/message-handler.ts:43-49 | no refresh support, no handlers, no registrations |
| CodeLenses.CodeLensMessageHandler.OnInitialized | packages/server/src/code-lens/message-handler.ts:51-88 | refresh support recorded first; nothing registered without dynamic registration; past that gate, registration is always sent |
| CodeLenses.CodeLensMessageHandler.OnCodeLens | packages/server/src/code-lens/message-handler.ts:90-135 | no handlers give no lenses; otherwise the handlers aggregated as `runHandlers` does |
| CodeLenses.CodeLensMessageHandler.OnCodeLensResolve | packages/server/src/code-lens/message-handler.ts:137-140 | the lens is returned unchanged |
| CodeLenses.CodeLensMessageHandler.Refresh | packages/server/src/code-lens/message-handler.ts:142-146 | a refresh request is sent only with refresh support |
| CodeLenses.SingleAsyncHandler | packages/server/src/code-lens/message-handler.ts:99-134 | the reveal handler alone, as an async handler without a token: its fulfilled lenses come back unchanged, a rejection gives none |
| Configuration.KeyName | packages/server/src/configuration/index.ts:119 | server keys are `regex-radar.<name>` |
| Configuration.Defaults | packages/server/src/configuration/index.ts:32-69 | exactly the eight default settings |
| Configuration.Initialized | packages/server/src/configuration/index.ts:84-100 | capabilities always stored; other client fields only when truthy; server keys untouched |
| Configuration.WriteAll | packages/server/src/configuration/index.ts:150-154 | writing settings never removes a key (the specification `WriteSettings` is proved against) |
| Configuration.InitializeCapabilities | packages/server/src/configuration/index.ts:101-108 | workspace folders supported, with change notifications |
| Configuration.Surviving | packages/server/src/configuration/index.ts:162-168 | the folders whose uri matches no removed folder, in order |
| Configuration.SurvivingAppend | packages/server/src/configuration/index.ts:162-168 | removal keeps folder order over any split of the folders |
| Configuration.SurvivingSingle | packages/server/src/configuration/index.ts:162-168 | one folder survives, once, exactly when no removed folder has its uri |
| Configuration.ConfigurationStore.constructor | packages/server/src/configuration/index.ts:76-78 | the defaults, with the fetch not settled |
| Configuration.ConfigurationStore.OnInitialize | packages/server/src/configuration/index.ts:84-109 | the configuration becomes the initialized one and the capabilities are returned |
| Configuration.ConfigurationStore.OnInitialized | packages/server/src/configuration/index.ts:111-147 | a fetch is requested with configuration support; change handlers are taken with dynamic registration |
| Configuration.ConfigurationStore.WriteSettings | packages/server/src/configuration/index.ts:117-121 | each setting is written under its server key, in order |
| Configuration.ConfigurationStore.CompleteFetch | packages/server/src/configuration/index.ts:116-124 | the fetched settings are written and the fetch settles; the handlers, disposables and the fetch request are unchanged |
| Configuration.ConfigurationStore.OnDidChangeConfiguration | packages/server/src/configuration/index.ts:149-158 | a missing section rejects with nothing changed; otherwise the settings are written, then handlers are called in order with the configuration up to and including the first that throws; the call rejects exactly when some handler throws |
| Configuration.ConfigurationStore.OnDidChangeWorkspaceFolders | packages/server/src/configuration/index.ts:160-171 | the surviving folders followed by the added ones |
| Configuration.ConfigurationStore.Get | packages/server/src/configuration/index.ts:173-184 | waits until the fetch settles, then answers the stored value |
| Configuration.WriteAllKeepsClientKeys | packages/server/src/configuration/index.ts:149-154 | setting writes never touch client keys |
| Configuration.WriteAllStores | packages/server/src/configuration/index.ts:149-154 | the last write of a key is the value stored |
| Configuration.WriteAllLeavesOtherKeys | packages/server/src/configuration/index.ts:149-154 | keys not written keep their values |
| Configuration.FolderRemovalIgnoresName | packages/server/src/configuration/index.ts:164 | a folder is removed by uri even when the names differ |
| Configuration.NothingRemoved | packages/server/src/configuration/index.ts:162-168 | removing nothing keeps every folder |
| Configuration.ZeroProcessIdIgnored | packages/server/src/configuration/index.ts:92-94 | a process id of 0 leaves the stored one |
| Configuration.NoConfigurationSupportKeepsWaiting | packages/server/src/configuration/index.ts:111-126 | without configuration support, `get` never settles |
| Lifecycle.LogLine | packages/server/src/lifecycle/handler.ts:115-129 | every error line starts with the lifecycle prefix and the event name |
| Lifecycle.Results | packages/server/src/lifecycle/handler.ts:41-51 | the truthy results, with `{ capabilities: {} }` for a throw |
| Lifecycle.ResultsAppend | packages/server/src/lifecycle/handler.ts:41-51 | results keep handler order over any split of the handlers |
| Lifecycle.ResultsSingle | packages/server/src/lifecycle/handler.ts:41-51 | a returning handler contributes its capabilities, a void one nothing, a throwing one `{ capabilities: {} }` |
| Lifecycle.InitializeLog | packages/server/src/lifecycle/handler.ts:46-48 | at most one log line per handler; InitializeLogAppend and InitializeLogSingle give its contents |
| Lifecycle.HookLog | packages/server/src/lifecycle/handler.ts:68-111 | at most one log line per hook |
| Lifecycle.Merge | packages/server/src/lifecycle/handler.ts:52-56 | the merge never removes a key of the shared target |
| Lifecycle.LifecycleHandler.constructor | packages/server/src/lifecycle/handler.ts:17 | empty default capabilities, empty log |
| Lifecycle.LifecycleHandler.OnInitialize | packages/server/src/lifecycle/handler.ts:40-64 | the persistent defaults absorb the merged results and are returned with the server info |
| Lifecycle.LifecycleHandler.OnHookEvent | packages/server/src/lifecycle/handler.ts:68-111 | every hook runs and each failure is logged |
| Lifecycle.MergeTwice | packages/server/src/lifecycle/handler.ts:52-56 | merging twice into the same target equals one merge of both lists |
| Lifecycle.MergeKeys | packages/server/src/lifecycle/handler.ts:52-56 | the merged keys are the target's and the results' |
| Lifecycle.MergeLastWins | packages/server/src/lifecycle/handler.ts:52-56 | the last result with a key decides its value |
| Lifecycle.LastReturningHandlerWins | packages/server/src/lifecycle/handler.ts:41-56 | over handler outcomes: a key takes the value of the last handler returning it when no later handler sets it |
| Lifecycle.ResultsWithoutKey | packages/server/src/lifecycle/handler.ts:41-51 | handlers that do not set a key contribute no result with it |
| Lifecycle.MergeKeeps | packages/server/src/lifecycle/handler.ts:52-56 | keys no result sets keep the target's value |
| Lifecycle.ThrowingInitializeAddsCapabilitiesKey | packages/server/src/lifecycle/handler.ts:46-49 | a throwing handler contributes `{ capabilities: {} }` at its own position among the others, so the merge has the key `capabilities` |
| Lifecycle.VoidResultsDropped | packages/server/src/lifecycle/handler.ts:51 | a handler that returns nothing is dropped wherever it stands |
| Lifecycle.InitializeLogAppend | packages/server/src/lifecycle/handler.ts:41-50 | initialize logs concatenate in handler order |
| Lifecycle.InitializeLogSingle | packages/server/src/lifecycle/handler.ts:46-48 | a throwing handler logs exactly one `onInitialize` line; a returning one logs nothing |
| Lifecycle.ThrowingInitializeIsLogged | packages/server/src/lifecycle/handler.ts:46-48 | a throwing handler adds its one line among the others' lines, wherever it stands |
| Lifecycle.HookLogAppend | packages/server/src/lifecycle/handler.ts:68-111 | hook logs concatenate in order |
| Lifecycle.FailureIsIsolated | packages/server/src/lifecycle/handler.ts:72-76 | one failing hook adds its one line and changes nothing else |
| Parsers.UnsupportedMessage | packages/server/src/parsers/provider.ts:32 | `language ID: <id> is not supported` |
| Parsers.CreateParser | packages/server/src/parsers/provider.ts:29-33 | every language id is rejected with that message |
| Parsers.ParserProvider.constructor | packages/server/src/parsers/provider.ts:16 | the cache starts empty |
| Parsers.ParserProvider.GetUsing | packages/server/src/parsers/provider.ts:19-27 | a hit returns the cached parser; a successful miss is stored; a failed one leaves the cache |
| Parsers.ParserProvider.Get | packages/server/src/parsers/provider.ts:19-34 | as written every miss rejects and the cache stays as it was |
| Parsers.UnsupportedMessageInjective | packages/server/src/parsers/provider.ts:32 | the message identifies the language id |
| InspectorEntries.PropertyValue | apps/vscode-extension/src/regex-explorer/inspector/entry.ts:190 | only flags nodes have flag properties; modifier flags only `i`, `m` and `s` |
| InspectorEntries.CreateEntry | apps/vscode-extension/src/regex-explorer/inspector/entry.ts:71-99 | every node becomes an AST-node entry holding it |
| InspectorEntries.AstChildren | apps/vscode-extension/src/regex-explorer/inspector/entry.ts:101-149 | AST children are structurally smaller |
| InspectorEntries.FlagChildren | apps/vscode-extension/src/regex-explorer/inspector/entry.ts:189-197 | exactly the table rows whose property is set, as flag entries |
| InspectorEntries.FlagChildrenAppend | apps/vscode-extension/src/regex-explorer/inspector/entry.ts:187-197 | flag children keep table order over any split of the table |
| InspectorEntries.FlagChildrenSingle | apps/vscode-extension/src/regex-explorer/inspector/entry.ts:187-197 | one row gives its flag entry exactly when its property is set |
| InspectorEntries.Children | apps/vscode-extension/src/regex-explorer/inspector/entry.ts:151-208 | flag entries have no children, and a flags node has only flag entries as children |
| InspectorEntries.HasChildren | apps/vscode-extension/src/regex-explorer/inspector/entry.ts:210-273 | `hasChildren` by node kind; compared with `Children` by `HasChildrenAgreesWithChildren` and `SingleLeafAlternativeDisagrees` |
| InspectorEntries.FlagTableShape | apps/vscode-extension/src/regex-explorer/inspector/entry.ts:26-69 | the table lists d g i m s u v y, each with its own property |
| InspectorEntries.FlagEntriesAreLeaves | apps/vscode-extension/src/regex-explorer/inspector/entry.ts:204-206 | flag entries have no children |
| InspectorEntries.SingleElementAlternative | apps/vscode-extension/src/regex-explorer/inspector/entry.ts:156-160 | a one-element Alternative shows that element's children |
| InspectorEntries.LeafNodes | apps/vscode-extension/src/regex-explorer/inspector/entry.ts:224-261 | characters, sets, assertions and class ranges have no children on either count |
| InspectorEntries.StructuredChildren | apps/vscode-extension/src/regex-explorer/inspector/entry.ts:127-144 | Group, Modifiers and RegExpLiteral children |
| InspectorEntries.FlagsChildrenAreTheSetFlags | apps/vscode-extension/src/regex-explorer/inspector/entry.ts:187-198 | a flags node has children exactly when some flag is set, and they are the set flags |
| InspectorEntries.ModifierFlagsShowOnlyIMS | apps/vscode-extension/src/regex-explorer/inspector/entry.ts:187-198 | modifier flags show only `i`, `m` and `s` |
| InspectorEntries.HasChildrenAgreesWithChildren | apps/vscode-extension/src/regex-explorer/inspector/entry.ts:210-273 | `hasChildren` agrees with `getChildren` except for Alternative, Group and Backreference |
| InspectorEntries.SingleLeafAlternativeDisagrees | apps/vscode-extension/src/regex-explorer/inspector/entry.ts:156-160 | an Alternative of one character claims children but shows none |
| InspectorView.NodeIcon | apps/vscode-extension/src/regex-explorer/inspector/view.ts:30-34 | only patterns and flags nodes have an icon |
| InspectorView.GetTreeItem | apps/vscode-extension/src/regex-explorer/inspector/view.ts:54-101 | a flag shows its letter, property and description; a node shows its type and is collapsible exactly when it has children |
| InspectorView.InspectorViewTreeDataProvider.constructor | apps/vscode-extension/src/regex-explorer/inspector/view.ts:41 | no AST is loaded |
| InspectorView.InspectorViewTreeDataProvider.Update | apps/vscode-extension/src/regex-explorer/inspector/view.ts:45-48 | the AST of the given regex, or none, then a refresh |
| InspectorView.InspectorViewTreeDataProvider.GetRoot | apps/vscode-extension/src/regex-explorer/inspector/view.ts:110-119 | empty without an AST; the pattern, then the flags only when some flag is set |
| InspectorView.InspectorViewTreeDataProvider.GetChildren | apps/vscode-extension/src/regex-explorer/inspector/view.ts:103-108 | the root for no element, else the element's children |
| InspectorView.RootIsLiteralChildren | apps/vscode-extension/src/regex-explorer/inspector/view.ts:110-119 | the root is the literal's children, without the flags when none is set |
| InspectorView.Contains | apps/vscode-extension/src/regex-explorer/inspector/view.ts:173-174 | VS Code's `Range.contains`: both ends of the selection within the range, positions ordered by line then column |
| InspectorView.FindContaining | apps/vscode-extension/src/regex-explorer/inspector/view.ts:172-175 | the first regex whose range contains the selection, or none when none does |
| InspectorView.SelectedRegex | apps/vscode-extension/src/regex-explorer/inspector/view.ts:140-176 | none for other languages, cancellation or non-file results; a containing regex of the file when one exists |
| InspectorView.HandleSelectionChange | apps/vscode-extension/src/regex-explorer/inspector/view.ts:134-180 | the selected regex is loaded; otherwise the view is unchanged |
| InspectorView.FirstMatchWins | apps/vscode-extension/src/regex-explorer/inspector/view.ts:172-175 | of two containing regexes the first is loaded |
| InspectorView.IsInRangeImpliesContains | apps/vscode-extension/src/regex-explorer/inspector/view.ts:173-174 | whatever the server's range test accepts, the editor's containment accepts |
| InspectorView.ContainsDoesNotImplyIsInRange | apps/vscode-extension/src/regex-explorer/inspector/view.ts:173-174 | the editor's containment is by position order, so it accepts ranges the server's test rejects |
| LegacyInspectorView.CreateInspectorViewEntry | apps/vscode-extension/src/regex-explorer/inspector-view.ts:108-141 | a Flags node becomes the flags entry, any other node an AST entry |
| LegacyInspectorView.SetRows | apps/vscode-extension/src/regex-explorer/inspector-view.ts:191-194 | exactly the rows whose property is set |
| LegacyInspectorView.SetRowsAppend | apps/vscode-extension/src/regex-explorer/inspector-view.ts:191-200 | the set rows keep table order over any split of the table |
| LegacyInspectorView.SetRowsSingle | apps/vscode-extension/src/regex-explorer/inspector-view.ts:191-200 | one row is kept exactly when its property is set |
| LegacyInspectorView.FlagRows | apps/vscode-extension/src/regex-explorer/inspector-view.ts:191-200 | for any table: its set rows as flag rows, index by index, and exactly the flag rows of set table rows |
| LegacyInspectorView.CreateFlagsChildren | apps/vscode-extension/src/regex-explorer/inspector-view.ts:146-201 | exactly the legacy rows whose property is set, as flag rows, in the order of the set rows |
| LegacyInspectorView.ChildrenOf | apps/vscode-extension/src/regex-explorer/inspector-view.ts:89-99 | AST nodes and flag rows have no children |
| LegacyInspectorView.GetTreeItem | apps/vscode-extension/src/regex-explorer/inspector-view.ts:62-83 | nodes show their type; the flags entry is collapsed; a flag shows letter, property and description |
| LegacyInspectorView.LegacyInspectorViewTreeDataProvider.constructor | apps/vscode-extension/src/regex-explorer/inspector-view.ts:49 | no AST is loaded |
| LegacyInspectorView.LegacyInspectorViewTreeDataProvider.Update | apps/vscode-extension/src/regex-explorer/inspector-view.ts:53-56 | the AST of the given regex, or none, then a refresh |
| LegacyInspectorView.LegacyInspectorViewTreeDataProvider.GetRoot | apps/vscode-extension/src/regex-explorer/inspector-view.ts:102-106 | the pattern and the flags entry whenever an AST is loaded |
| LegacyInspectorView.LegacyInspectorViewTreeDataProvider.GetChildren | apps/vscode-extension/src/regex-explorer/inspector-view.ts:85-100 | the root for no element, else the element's children |
| LegacyInspectorView.TablesDifferOnlyInMAndS | apps/vscode-extension/src/regex-explorer/inspector-view.ts:147-190 | the legacy table differs from the current one only in the properties of `m` and `s` |
| LegacyInspectorView.MultilineAndDotAllFollowIgnoreCase | apps/vscode-extension/src/regex-explorer/inspector-view.ts:163-173 | `i`, `m` and `s` rows appear exactly when `ignoreCase` is set |
| LegacyInspectorView.LegacyShowsMultilineForIgnoreCase | apps/vscode-extension/src/regex-explorer/inspector-view.ts:163-168 | with `i` set and `m` unset the legacy view still shows `m` |
| LegacyInspectorView.CurrentHidesUnsetMultiline | apps/vscode-extension/src/regex-explorer/inspector/entry.ts:187-198 | with `m` unset the current view shows no `m` row |
| ExternalTool.Put | apps/vscode-extension/src/commands/open-in-external-tool.ts:19 | an existing key keeps its place; a new key goes last |
| ExternalTool.Concatenated | apps/vscode-extension/src/commands/open-in-external-tool.ts:6-10 | empty exactly for no parameters |
| ExternalTool.BuildQuery | apps/vscode-extension/src/commands/open-in-external-tool.ts:5-12 | no parameters give the empty query |
| ExternalTool.ConcatenatedIsJoinedWithAmpersand | apps/vscode-extension/src/commands/open-in-external-tool.ts:6-10 | the reduction is the `&`-join plus one trailing `&` |
| ExternalTool.BuildQueryJoinsPairs | apps/vscode-extension/src/commands/open-in-external-tool.ts:5-12 | the query is `k=enc(v)` pairs joined by `&`, in insertion order |
| ExternalTool.CreateParams | apps/vscode-extension/src/commands/open-in-external-tool.ts:14-22 | the pattern under the key, then `flags` when the match has flags |
| ExternalTool.CreateRegExrUri | apps/vscode-extension/src/commands/open-in-external-tool.ts:24-31 | https, regexr.com, path `/`, key `expression` |
| ExternalTool.CreateRegex101Uri | apps/vscode-extension/src/commands/open-in-external-tool.ts:33-40 | https, regex101.com, path `/`, key `regex` |
| ExternalTool.Regex101QueryOfLiteral | apps/vscode-extension/src/commands/open-in-external-tool.ts:33-40 | a literal gives `regex=…&flags=…` |
| ExternalTool.RegExrQueryOfString | apps/vscode-extension/src/commands/open-in-external-tool.ts:14-31 | a string match gives the expression alone |
| ClientLog.IndexOf | apps/vscode-extension/src/client/index.ts:51 | the first index of the character, or -1 |
| ClientLog.SliceIndex | apps/vscode-extension/src/client/index.ts:52-54 | the index stays within the length; an in-range index is kept as it is |
| ClientLog.Slice | apps/vscode-extension/src/client/index.ts:52-54 | in-bounds slices are subsequences |
| ClientLog.Extract | apps/vscode-extension/src/client/index.ts:48-60 | a header line sets and remembers the named level, or Off; its message starts two after the first `]`; any other line takes the remembered level, which resets to Off |
| ClientLog.TrimEnd | apps/vscode-extension/src/client/index.ts:90 | a prefix ending in non-white space, with only white space removed |
| ClientLog.OutputChannelAdapter.constructor | apps/vscode-extension/src/client/index.ts:46 | the remembered level starts at Off |
| ClientLog.OutputChannelAdapter.LogMessage | apps/vscode-extension/src/client/index.ts:62-85 | one leveled call for every level but Off |
| ClientLog.OutputChannelAdapter.AppendLine | apps/vscode-extension/src/client/index.ts:92-95 | extracts, remembers, and logs |
| ClientLog.OutputChannelAdapter.Append | apps/vscode-extension/src/client/index.ts:89-91 | the value without trailing white space, as one line |
| ClientLog.OneContinuationLineInherits | apps/vscode-extension/src/client/index.ts:55-59 | only one continuation line inherits a header's level |
| ClientLog.ServerLineFormat | apps/vscode-extension/src/client/index.ts:49-54 | `[<name> <time>] <message>` is logged at the named level with that message |
| ClientLog.ClientRegistry.constructor | apps/vscode-extension/src/client/index.ts:10 | no client exists |
| ClientLog.ClientRegistry.Register | apps/vscode-extension/src/client/index.ts:12-27 | an existing client is returned; otherwise one is created and kept |
| ClientLog.RegisterTwice | apps/vscode-extension/src/client/index.ts:12-17 | two registrations yield the same client |

## Left out

- The discovery cache, ignore policy and scanner (`discovery/build`, `discovery/service`, `parse/parseJs`) are not part of this model. Discovery results and parser matches are inputs.
- The `logger?.thrown` calls of `runHandlers` (util/handlers.ts lines 36 and 47) are not modelled; a throwing or rejected handler is skipped silently.
- Promises, awaits and concurrency are not modelled. An asynchronous handler's eventual outcome is an input (`Settled`). Cancellation is a token value that says from which point checks see it, and whether it came during the wait.
- The file system, editor buffers and URI parsing are abstract. A directory tree is a value, and `URI.parse`/`fsPath`/`toString` are identity on strings.
- TreeView.Join: concatenates the directory, `/` and the name; the normalisation `path.join` does (a trailing separator, `.` and `..` segments) is not modelled.
- TreeView.BuildFile: `uriToDocument`, which the tree builder imports from documents.ts, is not part of this model; the build uses `Documents.Get`'s open-buffer-then-disk lookup in its place.
- `encodeURIComponent`, the `LogLevel` name lookup and the regex AST request are function parameters.
- The ReDoS verdict per match is an input. `RedosDiagnostics.OnDocumentDiagnostic` does not reconcile it with the check service's result, of which it reads `.complexity`.
- The ReDoS checker worker (recheck) is not modelled; only its cache is.
- `Promise.all` in the tree builder rejects on the first failure. The model reports one failure without fixing which one.
- Fetch rejection is not modelled.
- The default configuration is shared between instances in the source. The model gives each store its own copy.
- JSON numbers are integers.
- The mutation of `params.context.diagnostics` in the code-action handler is modelled as a new parameter value passed to the handlers.
- `util/array` `unique` is not part of this model; keep-first order is assumed.
- `DocumentsService.register`, `registerInspectorView`, the selection debounce source, and the VS Code UI calls (tree views, output channel, commands) are left out as editor glue.
- `InspectorView.SelectedRegex`: a superseded request is not distinguished from a cancelled one. The single `cancelled` flag stands for the check at view.ts:160-166.
- `InspectorView.Contains`: VS Code's normalisation of reversed ranges is not modelled.
- `InspectorEntries.Node`: a backreference's resolved groups are copies, so a backreference to an enclosing group (a cycle in the parser's graph) is not representable.
- `InspectorEntries.Node`: lookaround assertions carry no alternatives, since `getAstChildren` does not visit them.
- `ExternalTool.CreateParams`: the command's argument is typed with the older entry shape but reads `entry.match`. The model uses the protocol entry, whose match has the pattern and optional flags.
- `ClientLog.ClientRegistry.Register`: the await on `client.start()` is not modelled. Neither is a second call that arrives during it and gets the not-yet-started client.
- `Lifecycle.LogLine`: the text of a thrown value is an input, because `toString` is arbitrary code.
