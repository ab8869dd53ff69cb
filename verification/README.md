# Asterlane core, verified

A Dafny model of the in-memory core of Asterlane, an MCP/HTTP tool gateway: the
schema projection shown to agents, tool-name resolution and paging, the
description overlay and the admin write protocol, the key pool, the result cache
with its chunked fetch, integrity drift, gateway authentication and the embedding
cache. `dafny verify dfyconfig.toml` checks the whole project.

## How it is built

Each component has value types, pure functions for what its operations compute,
and lemmas about those functions over all inputs, all runs or all interleavings.
Where the source updates fields or fills collections in a loop, a class or a
method with loop invariants does the same and is proved equal to the function.

| module | component |
|---|---|
| `SchemaText`, `SchemaView`, `JsonSchema` | text capping, the projection, and a validator for the `$ref`-free part of JSON Schema draft 2020-12 |
| `Naming`, `Policy`, `CatalogQuery`, `CatalogPages` | wire names, key scopes, three-tier resolution, exposed names, paging, search |
| `Dedup`, `McpRegistry` | first-come deduplication, and the server registry under concurrent refreshes |
| `Catalog`, `ToolCatalog`, `AdminProtocol` | the description overlay, the object that holds it, and the lock protocol of its writers |
| `KeyStates`, `KeyBalance`, `KeyCarry`, `KeyHotSwap`, `KeyPool` | lease and cooldown machine, load balancing, hot swap of the resources' pools |
| `Utf8`, `ResultCache` | slicing at character boundaries, the continuation protocol, the evicting cache |
| `Integrity` | pins, drift events, quarantine over histories |
| `Hex`, `AuthState`, `GatewayAuth` | token digests and the authentication state |
| `Semantic` | batched embedding and the ranking cache |
| `Prelude`, `Sorting`, `Json` | shared values |

## Where the code does less than promised

Each of these has a lemma with a failing input and one with the exact condition.

- A scope pattern that does not compile makes hidden tools observable through a
  short name; resolution is independent of out-of-scope tools exactly for keys
  none of whose scope checks can fail (`HiddenNamesakeErrs`, `NonInterferenceIff`,
  `ScopeCheckErrs`).
- A tool that appears under a `warn` server and then moves, unchanged, to a
  `quarantine` server is listed there without quarantine (`OwnerChangeEscapes`,
  `TrustedOrQuarantinedIff`).
- A swap can bring two tools with one wire name together, since no name is checked:
  a configuration file may give an API resource and an MCP server one id
  (`SharedIdDoublesTool`), and `update_resource` may rename a resource's tools to a
  server tool's name (`RenamedResourceTakesName`); `SwapKeepsNamesDistinctIff` is the
  exact condition.
- With such a shared id every refresh drops the configured API tools from the catalog
  (`SyncDropsConfiguredTool`, `SyncKeepsConfigIff`, `ConfigStaysListedIff`).
- A refresh that overlaps the adding of a server can bring in that server's tool
  names, since the merge by id does not deduplicate (`RefreshTakesAddedName`,
  `MergeKeepsNamesIff`); the next refresh repairs it if no server is added meanwhile
  (`CoveredMergeHeals`).
- With a repeated secret ref the last old key alone decides what is carried over,
  so a cooldown can be lost or cut short (`RepeatedRefLosesCooldown`,
  `RepeatedRefShortensCooldown`, `CarryKeepsDeadlinesIff`, `CarriedStaysOutIff`).
- A request that holds its key across a hot swap marks the old pool: a mark after the
  snapshot reaches the new pool only as far as the snapshot already cooled the key
  (`LeasedMarkIsLost`, `LateMarkIsHonouredIff`).
- Two overlapping stores can leave an older result in the cache where a newer one
  was (`LateInsertEvictsNewer`, `InsertRecentIff`, `RunIsRecentIff`).
- Two ranking candidates with one name and different texts are scored by one text
  (`RepeatedNameSharesText`, `CacheIsTransparentIff`).
- A configuration that repeats a proxy key id can make it a token key and a
  legacy key at once (`RepeatedIdIsBoth`, `BuildDisjointIff`).
- `check` right after `rebase` on the same tools reports drift when two of them
  share a name and differ (`SameNameDrifts`, `CheckAfterRebaseIff`).
- A fetch limit below the width of the next character yields an empty chunk with
  `has_more` forever (`NarrowLimitStalls`, `ProgressesIff`). The `asl__fetch` handler
  always passes 48 KiB and so never sends such a limit (`HandlerProgresses`); only
  another caller of `fetch` could.
- A wire name does not always parse back to its tool name (`SeparatorInToolDoesNotParse`,
  `ParseWire`).

## Model

| member | source | states |
|---|---|---|
| `SchemaText.AsciiSentenceEnd` | src/schema_view.rs:75-97 | the scan after an ASCII stop answers "end of text, or blank then a line break, the end, or a sentence starter" |
| `SchemaText.ScanFirstSentence` | src/schema_view.rs:59-73 | the scan returns the text up to its first stop, dropping a line break and the blanks before it |
| `SchemaText.CapTextShape` | src/schema_view.rs:15-28 | a capped text has at most 200 characters, no line break, visible ends, and is blank only for blank input |
| `SchemaText.CapTextPrefix` | src/schema_view.rs:15-28 | a capped text is a prefix of the trimmed text, or 199 of its characters and an ellipsis |
| `SchemaText.CapTextIs` | src/schema_view.rs:15-97 | what capping yields, in characters: the trimmed text up to its first stop, without a line break and the blanks before it, over 200 characters the first 199 and an ellipsis |
| `SchemaText.TruncationKeepsNonStop` | src/schema_view.rs:15-28 | cutting and appending an ellipsis creates no sentence boundary |
| `SchemaText.PrefixKeepsNonStop` | src/schema_view.rs:59-97 | cutting after a visible character creates no sentence boundary before it |
| `SchemaText.CapTextIdempotent` | src/schema_view.rs:15-28 | capping is idempotent on every text |
| `SchemaView.FillNode` | src/schema_view.rs:246-257 | the loop over an object's entries yields the projected node |
| `SchemaView.FillEntry` | src/schema_view.rs:259-284 | each keyword class is rewritten by its own rule |
| `SchemaView.FillNamed` | src/schema_view.rs:296-305 | every named subschema is projected under its own property name |
| `SchemaView.FillList` | src/schema_view.rs:314-319 | every listed subschema is projected in place |
| `SchemaView.ProjectionKeeps` | src/schema_view.rs:259-294 | an entry goes only if it is one of the four boilerplate keys, a title repeating the property name, a blank description or `additionalProperties: true`; what is neither a description nor a place for schemas stays as it is |
| `SchemaView.ProjectSchemaIdempotent` | src/schema_view.rs:55-57 | `project_schema` is idempotent on every JSON value |
| `SchemaView.ProjectNodeLean` | src/schema_view.rs:246-294 | at every schema position of the result: no boilerplate, no title repeating the property name, no blank or long description, no `additionalProperties: true` |
| `JsonSchema.NodePreserved` | src/schema_view.rs:246-319 | a schema filed under any name, projected, accepts exactly the same instances, through nested properties, items, unions and conditionals |
| `JsonSchema.OneAssertion` | src/schema_view.rs:259-284 | the validator reads every assertion keyword by itself: a schema of one assertion accepts exactly the instances that meet it |
| `JsonSchema.RequiredDiscriminates` | src/schema_view.rs:259-284 | so a projection that lost `required` would not keep the meaning: with it the object without the property is rejected |
| `JsonSchema.ProjectSchemaPreservesMeaning` | src/schema_view.rs:55-57 | an instance validates against `project_schema(s)` iff it validates against `s` |
| `Naming.NormalizeIdempotent` | src/naming.rs:93-105 | normalising a normalised segment changes nothing |
| `Naming.NormalizeIff` | src/naming.rs:93-105 | a segment is accepted iff, trimmed and folded to lower case with blanks as `_`, it is a non-empty text of `a-z`, `0-9`, `-` and `_` |
| `Naming.NewYieldsNormalName` | src/naming.rs:22-44 | whatever `new` accepts has normal segments and at most 64 characters |
| `Naming.NewErrs` | src/naming.rs:22-44 | the first segment that fails decides the error, then the length: 64 characters with both separators |
| `Naming.NewOfNormalName` | src/naming.rs:22-44 | `new` is the identity on the segments of such a name |
| `Naming.SplitOfJoin` | src/naming.rs:61-71 | splitting `x__rest` gives `x` back iff `x` has no `__` and does not end in `_` |
| `Naming.SplitRejoins` | src/naming.rs:61-71 | for every text the parts joined by `__` give it back, and no part contains `__` |
| `Naming.SplitWire` | src/naming.rs:47-71 | the split of a wire name is its three segments exactly for the splittable names |
| `Naming.ParseWire` | src/naming.rs:47-71 | parsing the wire form of a constructed name returns it iff no segment contains `__` and neither domain nor provider ends in `_` |
| `Naming.SeparatorInToolDoesNotParse` | src/naming.rs:47-71 | a tool segment `c__d` gives a wire name that does not parse back |
| `Naming.ParseYieldsNormalName` | src/naming.rs:61-71 | whatever text is parsed, an accepted name is normal and within 64 characters |
| `Policy.AllowedIff` | src/policy.rs:28-66 | a key may use a name iff every deny pattern compiles and none matches, and a server, an exact name or a compiling list with a matching pattern allows it |
| `Policy.NarrowingNeverWidens` | src/policy.rs:28-66 | a key that denies more and allows less never gets a name that the wider key does not |
| `Policy.TranslateColon` | src/policy.rs:12-14 | each colon of a pattern becomes a double underscore |
| `Policy.TranslatePlain` | src/policy.rs:12-14 | and nothing else changes |
| `CatalogQuery.TwoSegmentMatchesIff` | src/catalog/mod.rs:232-236 | stripping the provider and `__` accepts exactly the joined form |
| `CatalogQuery.CollectCandidates` | src/catalog/query.rs:111-130 | the loop collects the scoped candidates of a tier, or fails if a scope check it reaches fails |
| `CatalogQuery.ResolveTier` | src/catalog/query.rs:111-144 | one candidate is a hit, several an ambiguity with at most 8 sorted names, none falls through |
| `CatalogQuery.AmbiguityReport` | src/catalog/query.rs:131-143 | a tier errs as ambiguous iff it has several candidates, and then names the smallest of them in order, at most 8 |
| `CatalogQuery.ResolveForKey` | src/catalog/query.rs:87-107 | canonical, then two-segment, then bare name, first tier with an outcome decides |
| `CatalogQuery.TierIff` | src/catalog/query.rs:111-144 | a tier hits `t` iff `t` alone has the name in that form, the asked domain and provider, and the scope; it passes iff nobody has |
| `CatalogQuery.ResolveIff` | src/catalog/query.rs:75-144 | for any qualifiers: a name resolves to `t` iff `t` is the sole contender in some form and nobody contends in a fuller one, and to nothing iff nobody contends |
| `CatalogQuery.CanonicalResolves` | src/catalog/query.rs:87-107 | a canonical name resolves to its tool for every key |
| `CatalogQuery.ShortNameResolves` | src/catalog/query.rs:87-144 | a short name with one visible user and no canonical namesake resolves to that user |
| `CatalogQuery.ExposedNameResolves` | src/catalog/query.rs:146-181 | every visible tool's exposed name resolves to exactly that tool, also when segments contain `__` |
| `CatalogQuery.ExposedNameIsShortest` | src/catalog/query.rs:146-181 | a spelling shorter than the shown name begins with `asl__`, is some tool's canonical name, or is a spelling of another visible tool |
| `CatalogQuery.ExposedNamesDistinct` | src/catalog/query.rs:146-181 | two visible tools never show the same name |
| `CatalogQuery.ExposedNameIsNotMeta` | src/catalog/query.rs:146-181 | no exposed name is a meta-tool's, and none but a canonical one begins with `asl__` |
| `CatalogQuery.TierOfVisible` | src/catalog/query.rs:111-144 | with working patterns a short-name tier depends on the visible tools alone |
| `CatalogQuery.NonInterference` | src/catalog/query.rs:75-107 | a non-canonical name has the same outcome in any two catalogs with the same visible tools |
| `CatalogQuery.HiddenNamesakeErrs` | src/catalog/query.rs:111-144 | a hidden tool whose scope check fails turns "not found" into an error |
| `CatalogQuery.NonInterferenceIff` | src/catalog/query.rs:75-144 | out-of-scope tools can influence the outcome iff some scope check of the key fails |
| `CatalogQuery.ScopeCheckErrs` | src/policy.rs:37-66 | a scope check fails exactly when it reaches a pattern list that does not compile |
| `CatalogPages.CollectVisible` | src/catalog/query.rs:29-34 | the scope loop returns the visible tools in order, or fails with the first failing check |
| `CatalogPages.ListForKey` | src/catalog/query.rs:12-73 | a page of the filtered visible tools with exposed names, or the regex or scope error |
| `CatalogPages.ListingRefusedIff` | src/catalog/query.rs:12-34 | a listing is refused iff one of its five patterns is invalid, or else the scope check of some tool in the catalog fails |
| `CatalogPages.UnfilteredListsScope` | src/catalog/query.rs:23-69 | without a filter everything in scope is listed |
| `CatalogPages.FilterParts` | src/catalog/query.rs:37-55 | each of the five filters keeps, of what the others list, exactly the tools whose wire name or segment it speaks of |
| `CatalogPages.PageHasItsSize` | src/catalog/query.rs:23-71 | a page has as many tools as asked for, by default the key's page size and at least one, unless the list ends first |
| `CatalogPages.FollowCollects` | src/catalog/query.rs:58-71 | asking again with each returned cursor, from any position, ends and collects the rest |
| `CatalogPages.ListedNames` | src/catalog/query.rs:23-69 | no two listed tools show the same name |
| `CatalogPages.ListPagesPartition` | src/catalog/query.rs:12-73 | for every page size the requested pages concatenate to the scoped, filtered list; with distinct wire names each tool and each shown name occurs once |
| `CatalogPages.FiltersNeverRename` | src/catalog/query.rs:23-69 | two requests that list a tool show it under the same name, and that name resolves to it |
| `CatalogPages.CollectMatching` | src/catalog/query.rs:231-251 | the scoring loop keeps exactly the tools with a score |
| `CatalogPages.RankOrderTotal` | src/catalog/query.rs:252-255 | score-then-name is a total order on all tools |
| `CatalogPages.FoundIff` | src/catalog/query.rs:231-251 | a tool is found iff the lower-cased query occurs in its lower-cased wire name or description |
| `CatalogPages.BetterHitsFirst` | src/catalog/query.rs:237-255 | exact names before all other hits, prefixes before inner matches, names before descriptions |
| `CatalogPages.Search` | src/catalog/query.rs:214-258 | the loop, the sort and the cut return the first `limit` of the one ranked list of matching visible tools, or the scope error |
| `CatalogPages.SearchResultsRanked` | src/catalog/query.rs:214-258 | that list is a permutation of the matching visible tools, best score first, then by wire name, each name once if names are distinct |
| `CatalogPages.NextArgsParse` | src/discovery.rs:283-312 | a returned cursor is accepted and keeps query and page size |
| `CatalogPages.ParseOptionsIff` | src/discovery.rs:283-312 | limit 10 and cursor 0 by default; a limit outside 1..=50 or anything but an unsigned 64-bit integer is refused |
| `CatalogPages.SearchAnswerIff` | src/discovery.rs:264-337 | a search request is refused exactly for its options, a failing scope check or a cursor behind the last result, and otherwise answered with that page of the results |
| `CatalogPages.SearchServes` | src/discovery.rs:264-337 | every repeated search answers its cursor with a page of the one ranked list |
| `CatalogPages.SearchPagesPartition` | src/discovery.rs:264-337 | for every accepted request, searching again with each returned cursor ends and collects the matching visible tools by score, then name, each once |
| `Dedup.DedupItems` | src/mcp/dedup.rs:64-103 | the filter on tools or prompts keeps exactly the items whose name is new, and its set grows by every offered name |
| `Dedup.KeepFacts` | src/mcp/dedup.rs:83-103 | kept items are distinct, untaken and the first of their name; every offered name is taken or kept |
| `Dedup.KeptInOrder` | src/mcp/dedup.rs:64-103 | kept items stay in the order in which they were offered |
| `McpRegistry.PushAll` | src/mcp/dedup.rs:13-28 | pushing the probed servers in turn, tools by a running set and prompts by the pushed entries, yields the deduplicated refresh |
| `McpRegistry.PushedNames` | src/mcp/dedup.rs:13-28 | a refresh by itself has distinct tool and prompt names |
| `McpRegistry.PushedLosesNothing` | src/mcp/dedup.rs:13-28 | no offered name is lost |
| `McpRegistry.PushedAt` | src/mcp/dedup.rs:13-28 | what a server keeps depends on earlier servers only through the names they offered |
| `McpRegistry.PushedKeepsFirst` | src/mcp/dedup.rs:13-28 | a server keeps only items of its own that it offered first and no earlier server offered |
| `McpRegistry.DedupBeside` | src/mcp/dedup.rs:32-54 | an entry is filtered against the names of all other entries |
| `McpRegistry.McpServerRegistry.AddServer` | src/mcp/health.rs:285-304 | an added server is filtered against the others and refused if its id is taken |
| `McpRegistry.McpServerRegistry.ReplaceEntry` | src/mcp/health.rs:351-358 | a probed or reconnected server replaces its entry; a removed one does not come back |
| `McpRegistry.McpServerRegistry.RemoveServer` | src/mcp/health.rs:342-347 | the entry with this id goes, the others stay in order |
| `McpRegistry.McpServerRegistry.MergeRefreshed` | src/mcp/health.rs:202-217 | the loop of replacements by id is the merge: added servers stay, removed ones do not come back |
| `McpRegistry.AddBrings` | src/mcp/health.rs:285-304 | a new server comes last with every name it offers that nobody has; a known id changes nothing |
| `McpRegistry.ReplaceBrings` | src/mcp/health.rs:351-358 | a replaced server has every name of its new entry that no other server has; the others stay |
| `McpRegistry.RemoveTakes` | src/mcp/health.rs:342-347 | exactly the entries with the id go, the others stay in order |
| `McpRegistry.MergeBrings` | src/mcp/health.rs:202-217 | also with repeated ids: the first entry of each id that the refresh has is replaced by the last one the refresh has; none is added or removed |
| `McpRegistry.MergeKeepsNamesIff` | src/mcp/health.rs:202-217 | a merge keeps names distinct iff no entry it brings offers a name of an entry it leaves: a server added since its snapshot, or a second entry of one id |
| `McpRegistry.CoveredMergeHeals` | src/mcp/health.rs:202-217 | a merge that replaces every entry leaves distinct names, whatever was there before |
| `McpRegistry.StepKeepsNamesIff` | src/mcp/health.rs:157-358 | snapshot, add, replace and remove always keep names distinct, a merge under exactly that condition |
| `McpRegistry.RunKeepsNamesIff` | src/mcp/health.rs:157-358 | over every run names are distinct in every state iff no merge brings a taken name |
| `McpRegistry.AddsBetweenKeepNames` | src/mcp/health.rs:157-358 | with distinct server ids they are in every run that adds servers only while no refresh is in flight |
| `McpRegistry.RefreshTakesAddedName` | src/mcp/health.rs:157-217 | a refresh that started before a server was added brings in that server's tool name |
| `Catalog.UpstreamDetermined` | src/catalog/mod.rs:213-225 | upstream texts can be read back from the catalog's own fields |
| `Catalog.SetOverrideRepresents` | src/catalog/mod.rs:138-153 | setting an override keeps "override, else upstream" and the recorded originals |
| `Catalog.RemoveOverrideRepresents` | src/catalog/mod.rs:155-166 | removing an override shows the upstream text again |
| `Catalog.EditsTouchFirst` | src/catalog/mod.rs:138-165 | also with repeated names an edit rewrites the first tool of its name and no other |
| `Catalog.RestoreAllAt` | src/catalog/mod.rs:169-175 | a recorded text goes back once, to the first tool of its name |
| `Catalog.RecordedIsLast` | src/catalog/mod.rs:213-226 | of several overridden tools of one name the last one's text is on record |
| `Catalog.ExtendRepresents` | src/catalog/mod.rs:106-120 | tools brought in are shown through the overrides, their upstream texts recorded, the list sorted |
| `Catalog.ReplaceRepresents` | src/catalog/mod.rs:124-135 | replacing the servers' tools leaves the other tools and every override in place |
| `Catalog.LoadRepresents` | src/catalog/mod.rs:169-184 | loading replaces the override set and nothing else |
| `Catalog.SwapRepresents` | src/admin/crud.rs:357-374 | a swap keeps every override and every kept tool's upstream text |
| `Catalog.SwapKeepsNamesDistinctIff` | src/admin/crud.rs:357-374 | for any live tools with distinct names: names are distinct after a swap iff the new API tools' are and none of them bears the name of a live tool under a kept server's id |
| `Catalog.UnchangedSwapKeepsNamesDistinctIff` | src/admin/crud.rs:357-374 | a swap that leaves API tools and servers alone keeps names distinct iff no API tool's resource id is a server id |
| `Catalog.SwapKeepsTools` | src/admin/crud.rs:357-374 | whatever the names, a swap lists the new API tools and the kept servers' tools, each as often as it is offered |
| `Catalog.SharedIdDoublesTool` | src/admin/crud.rs:357-374 | an API tool under an id shared with an MCP server is listed twice after a swap |
| `Catalog.SwapOffersIff` | src/admin/crud.rs:357-374 | after a swap a tool is listed iff the new configuration has it, or it was listed and its server is kept |
| `Catalog.ReplaceOffersIff` | src/catalog/mod.rs:124-135 | after a sync a tool is listed iff the registry has it, or it was listed under an id that is no server's |
| `Catalog.RenamedResourceTakesName` | src/admin/crud.rs:64-93 | with disjoint ids, an update that changes a resource's domain or provider can give its tool a live server tool's name |
| `Catalog.RunRepresents` | src/catalog/mod.rs:106-225 | after every run of extend, replace, set, remove and load the catalog refines the pair (upstream texts, overrides) |
| `Catalog.RunKeepsOrder` | src/catalog/mod.rs:106-185 | over every run the tools stay in the order of their wire names |
| `Catalog.SwapOrders` | src/admin/crud.rs:357-374 | so they are after a swap |
| `Catalog.RemovedShowsCurrentUpstream` | src/catalog/mod.rs:155-166 | removing an override after any run shows the current upstream text, never an older one |
| `ToolCatalog.ToolCatalog.OverlayTool` | src/catalog/mod.rs:213-225 | records the upstream text and returns the tool as shown |
| `ToolCatalog.ToolCatalog.ExtendWithMcpTools` | src/catalog/mod.rs:106-120 | the in-place loop is the extension of the catalog's value |
| `ToolCatalog.ToolCatalog.ReplaceMcpTools` | src/catalog/mod.rs:124-135 | the in-place update is the replacement of the servers' tools |
| `ToolCatalog.ToolCatalog.SetDescriptionOverride` | src/catalog/mod.rs:138-153 | the in-place update is the value-level set |
| `ToolCatalog.ToolCatalog.RemoveDescriptionOverride` | src/catalog/mod.rs:155-166 | the in-place update is the value-level removal |
| `ToolCatalog.ToolCatalog.RestoreTools` | src/catalog/mod.rs:169-177 | the first half of loading undoes every applied override |
| `ToolCatalog.ToolCatalog.LoadDescriptionOverrides` | src/catalog/mod.rs:169-184 | undo then replay is the value-level load |
| `ToolCatalog.ToolCatalog.CarryTools` | src/admin/crud.rs:360-372 | the kept servers' tools with their upstream texts |
| `ToolCatalog.AppState.SwapCatalog` | src/admin/crud.rs:339-382 | installs a new catalog equal to the value-level swap; the old object is left as it was |
| `AdminProtocol.StepKeepsHistory` | src/admin/metadata.rs:89-120 | every step, whatever the names, keeps the overrides equal to the replayed edits |
| `AdminProtocol.StepKeepsOverlay` | src/admin/metadata.rs:89-120 | a step after which names are distinct keeps "override, else upstream" |
| `AdminProtocol.StepKeepsExclusion` | src/http/state.rs:35-45 | every enabled step keeps the lock exclusive and a built catalog current until it is installed |
| `AdminProtocol.RunKeepsInv` | src/http/lifecycle.rs:45-110 | the invariant holds after every legal interleaving |
| `AdminProtocol.NoEditIsLost` | src/admin/crud.rs:339-382 | in every interleaving of swaps, edits, refreshes and reconnects the overrides are the initial ones with the edits that reached the catalog applied in order |
| `AdminProtocol.StepListsIff` | src/catalog/mod.rs:124-135 | a tool is listed after a step iff a sync or install brings it, or it was listed and the step does not cut its id |
| `AdminProtocol.SyncKeepsConfigIff` | src/http/lifecycle.rs:103-110 | after one sync the configuration's API tools are still listed iff none of their ids is a server's, or the registry brings the tool itself |
| `AdminProtocol.ConfigStaysListedIff` | src/admin/crud.rs:374-376 | in every interleaving all API tools of the current configuration are listed in every state outside an install iff every sync spares them |
| `AdminProtocol.SyncDropsConfiguredTool` | src/catalog/mod.rs:124-135 | with an API resource under a server's id one sync drops its configured tool |
| `AdminProtocol.OverlaySurvivesInterleaving` | src/admin/crud.rs:339-382 | in every interleaving that keeps names distinct every tool shows override-else-upstream |
| `AdminProtocol.AtMostOneWriter` | src/http/state.rs:35-45 | at most one task is between taking and releasing the lock |
| `AdminProtocol.LastEditWins` | src/admin/metadata.rs:79-120 | the last put or delete of a tool decides its override |
| `AdminProtocol.WithoutLockEditIsLost` | src/admin/crud.rs:336-376 | tasks that do not wait for the lock have a run in which a put or delete between a swap's read and its install is lost, iff it changed anything |
| `KeyStates.Select` | src/keys/strategy.rs:52-84 | the choice is a candidate, and a cheapest one for the two minimising strategies |
| `KeyStates.FastestIsChosen` | src/keys/strategy.rs:71-73 | no ready key has a lower latency on record than the chosen one, and an unmeasured key counts as slowest |
| `KeyStates.TiesGoToTheFirst` | src/keys/strategy.rs:70-73 | among equally cheap ready keys the one with the smallest id is chosen |
| `KeyStates.WeightedDrawsByWeight` | src/keys/strategy.rs:74-81 | of as many draws as the weights sum up to, each ready key gets as many as its weight, zero counting as one |
| `KeyStates.OverflowingWeightsPickFirst` | src/keys/strategy.rs:74-81 | weights that do not fit 32 bits together leave only the first key |
| `KeyStates.FirstCheapest` | src/keys/strategy.rs:70-73 | the first of the cheapest candidates |
| `KeyStates.Choose` | src/keys/pool.rs:136-160 | a chosen key is in the pool and not cooling |
| `KeyStates.StepKeepsLeasesBacked` | src/keys/pool.rs:63-91 | every operation keeps lease counts positive and within the live guards |
| `KeyStates.RunKeepsLeasesBacked` | src/keys/pool.rs:132-243 | over every run a lease count is at least 1 and at most the live guards of its key, so no release underflows |
| `KeyStates.RunKeepsLeasesExact` | src/keys/pool.rs:132-178 | without cooling or restore the active counts are the live guards |
| `KeyStates.AcquireFailsIff` | src/keys/pool.rs:132-160 | an acquire fails iff every key is cooling with its deadline ahead |
| `KeyStates.AcquireSkipsCooling` | src/keys/pool.rs:132-160 | no acquire hands out a key whose deadline is ahead |
| `KeyStates.CooldownHolds` | src/keys/pool.rs:63-91 | until its deadline no acquire, guard drop, expiry or other key's event ends a cooldown |
| `KeyStates.MarkedKeyStaysOut` | src/keys/pool.rs:180-188 | after `mark_cooling` the key is not handed out before the deadline, in any run |
| `KeyStates.MarkedStaysOutIff` | src/keys/pool.rs:180-188 | a marked key stays out until a deadline iff it is within the upstream's retry-after, or within 60 seconds if there is none |
| `KeyStates.RestoredStaysOutIff` | src/keys/pool.rs:227-244 | a restore writes the EWMA and keeps the key back exactly for what remains of its cooldown |
| `KeyStates.RestoreTouchesOneKey` | src/keys/pool.rs:227-244 | with nothing left to cool the state stays as it is, and no other key changes |
| `KeyStates.RandomReachesIff` | src/keys/strategy.rs:66-69 | the random strategy can hand out exactly the keys not cooling with their deadline ahead |
| `KeyStates.WeightedReachesIff` | src/keys/strategy.rs:74-81 | the weighted strategy can hand out any ready key, but only the first if the weights sum past 32 bits |
| `KeyStates.StaysOutIff` | src/keys/pool.rs:132-186 | no run in a period hands a key out iff the key cools to the end of the period |
| `KeyBalance.WindowVisits` | src/keys/strategy.rs:61-65 | a window of m cursor values visits each of n positions m/n times, rounded down or up |
| `KeyBalance.RoundRobinIsCyclic` | src/keys/pool.rs:137-168 | round-robin runs hand the ready keys out in cyclic order |
| `KeyBalance.RoundRobinFair` | src/keys/strategy.rs:52-65 | over m round-robin acquires on n ready keys each key is chosen m/n times, rounded down or up |
| `KeyBalance.LeastRequestsRunKeepsLevel` | src/keys/strategy.rs:70-70 | from level counts any run of least-requests acquires keeps the counts within one |
| `KeyPool.KeyPool.ExpireCooling` | src/keys/pool.rs:63-72 | the loop frees exactly the keys whose deadline has passed |
| `KeyPool.KeyPool.CollectReady` | src/keys/pool.rs:137-152 | the sorted candidate ids |
| `KeyPool.KeyPool.Acquire` | src/keys/pool.rs:132-178 | result and new state are those of the machine's acquire |
| `KeyPool.KeyPool.Drop` | src/keys/pool.rs:82-91 | dropping a live guard is the machine's release |
| `KeyPool.KeyPool.MarkCooling` | src/keys/pool.rs:180-188 | the machine's cooling step, with the default of 60 seconds |
| `KeyPool.KeyPool.RestoreRuntime` | src/keys/pool.rs:227-243 | remaining cooldown and EWMA are set, a lease never |
| `KeyPool.ResourceKeyPool.constructor` | src/keys/registry.rs:28-50 | keys get the ids 1..n in list order, all available |
| `KeyPool.ResourceKeyPool.SnapshotByRef` | src/keys/registry.rs:137-150 | the lookup map holds, per secret ref, the state of the last key with that ref |
| `KeyPool.ResourceKeyPool.CarryRuntimeFrom` | src/keys/registry.rs:142-159 | every new key takes over from the old key with its ref, the others stay as they are |
| `KeyPool.KeyPoolRegistry.CarryRuntimeFrom` | src/keys/registry.rs:137-162 | each resource that had a pool carries from it, the others are left alone |
| `KeyCarry.CarryKeepsCooldown` | src/keys/registry.rs:137-162 | with distinct refs a kept ref has the same EWMA, cools iff it still cooled, and until a deadline no earlier, in any order of keys |
| `KeyCarry.CarriedKeyStaysOut` | src/keys/registry.rs:137-162 | with distinct refs no run of the rebuilt pool hands the key out before the old deadline |
| `KeyCarry.CarriedState` | src/keys/registry.rs:137-162 | the carried key has the last old key's EWMA and its remaining cooldown counted from the restore |
| `KeyCarry.CarryKeepsDeadlinesIff` | src/keys/registry.rs:137-162 | for any refs, repeated or not: every cooling old key's deadline is kept iff the last old key with that ref reaches all of them, and every EWMA iff they agree |
| `KeyCarry.CarriedStaysOutIff` | src/keys/registry.rs:137-162 | no run of the rebuilt pool hands the key out before an old key's deadline iff that deadline has passed or the last old key reaches it |
| `KeyCarry.RepeatedRefLosesCooldown` | src/keys/registry.rs:137-162 | a cooling key followed by an available one with its ref comes back available |
| `KeyCarry.RepeatedRefShortensCooldown` | src/keys/registry.rs:137-162 | of two cooling keys with one ref the later one's shorter cooldown replaces the longer, and some run hands the key out early |
| `KeyHotSwap.EarlyMarkIsHonoured` | src/admin/resource_keys.rs:66-72 | a mark on the old pool before the snapshot keeps the key back in every run of the new pool until the deadline |
| `KeyHotSwap.LateMarkIsHonouredIff` | src/proxy/retry.rs:351-360 | a mark on the old pool after the snapshot is honoured by the new pool iff the snapshot carried a cooldown that reaches its deadline |
| `KeyHotSwap.LeasedMarkIsLost` | src/proxy/retry.rs:351-360 | a request that holds its key across the snapshot marks in vain |
| `Utf8.BoundarySplits` | src/shaping.rs:250-257 | cutting a valid text at a character boundary leaves two valid texts |
| `Utf8.EncodedIsValid` | src/shaping.rs:250-268 | every encoding of characters by section 3 of RFC 3629 is a text of the model |
| `Utf8.ValidIsEncoded` | src/shaping.rs:250-268 | and every text of the model is such an encoding |
| `Utf8.NextBoundary` | src/shaping.rs:259-268 | between neighbouring boundaries lies one character of one to four bytes |
| `Utf8.FloorCharBoundary` | src/shaping.rs:259-268 | the backward scan finds the greatest boundary not above the index |
| `Utf8.TruncateIsLongestFit` | src/shaping.rs:250-257 | truncation is a valid prefix that fits, and no valid prefix that fits is longer |
| `Utf8.ChunkIsSlice` | src/shaping.rs:110-136 | every chunk, also at a misaligned offset, is a valid text lying in the body where it says |
| `Utf8.ChunkIsWithinLimit` | src/shaping.rs:110-136 | no chunk reaches beyond offset plus limit, and `has_more` is true iff the body goes on after it |
| `Utf8.ChunkFillsItsLimit` | src/shaping.rs:110-136 | a chunk stops short of its limit only at the end of the body or for want of room for the next character |
| `Utf8.ProgressesIff` | src/shaping.rs:110-136 | every request moves on iff each character of the body fits the limit |
| `Utf8.NarrowLimitStalls` | src/shaping.rs:110-136 | below a limit of 4 a four-byte character stalls the protocol |
| `Utf8.CollectIsRest` | src/http/tools.rs:404-419 | following offset plus text length while there is more ends and collects the rest of the body |
| `Utf8.HeadAndChunksReassemble` | src/http/tools.rs:404-419 | truncated head plus collected chunks is the body, for every budget and every limit of at least 4 |
| `Utf8.RepliesReassemble` | src/http/tools.rs:404-419 | every conversation that comes to its end reassembles the body, whatever happened between its requests |
| `Utf8.HandlerProgresses` | src/http/tools.rs:405-409 | with the 48 KiB limit that the handler always passes every request moves on |
| `ResultCache.CursorNamesInjective` | src/shaping.rs:75-98 | no two stores share a cursor name |
| `ResultCache.TotalWithout` | src/shaping.rs:163-167 | the byte total does not depend on the order of summation |
| `ResultCache.OldestKey` | src/shaping.rs:175-179 | a key with the least creation time, or none for the empty map |
| `ResultCache.ExpiryTakesOldest` | src/shaping.rs:139-143 | expiry takes the oldest entries and no others |
| `ResultCache.PartTotal` | src/shaping.rs:163-167 | a part of a cache has no more entries and bytes than the whole |
| `ResultCache.NoneNewerWentIff` | src/shaping.rs:84-92 | making room takes nothing newer than an instant iff there is room beside everything newer than it |
| `ResultCache.InsertRecentIff` | src/shaping.rs:84-97 | an insert keeps the cache the most recent of all stores iff, before it, nothing gone is newer than the record and the record fits beside everything newer than itself |
| `ResultCache.RunKeepsSound` | src/shaping.rs:75-143 | in every interleaving of critical sections, in every state: held entries are stored records, at most 64, all but the last insert under 64 MiB |
| `ResultCache.FreshIff` | src/shaping.rs:108-143 | an entry lives until 900 seconds after its creation, to the nanosecond |
| `ResultCache.RunKeepsLimits` | src/shaping.rs:75-143 | in numbers: never more than 64 entries, nor 67 108 864 bytes beside the last insert |
| `ResultCache.RunIsRecentIff` | src/shaping.rs:75-143 | over every interleaving: the cache holds the most recent stores in every state iff every record is on time at its insert |
| `ResultCache.InOrderRunIsRecent` | src/shaping.rs:75-143 | so it does in every run that inserts in the order of the stamps |
| `ResultCache.InOrderRunHoldsSuffix` | src/shaping.rs:75-143 | and with distinct stamps the held entries are exactly a suffix, in time order, of all stores |
| `ResultCache.RecentIsSuffix` | src/shaping.rs:75-98 | a recent cache is, in time order, a suffix of all stores |
| `ResultCache.ResultCache.Sweep` | src/shaping.rs:139-143 | exactly the expired entries go, and a recent cache stays recent |
| `ResultCache.ResultCache.MakeRoom` | src/shaping.rs:84-92 | the eviction loop terminates, removes oldest first, leaves room in both limits, and evicts no more than it must |
| `ResultCache.ResultCache.InsertEntry` | src/shaping.rs:84-97 | the second critical section, for any stamp: at most 64 entries, all but the newest insert under 64 MiB, the new entry held, recency kept iff the record is on time in the state before |
| `ResultCache.LateInsertEvictsNewer` | src/shaping.rs:75-98 | two overlapping stores can leave an older body where a newer one was |
| `ResultCache.ResultCache.Store` | src/shaping.rs:75-98 | an uninterrupted store, for any clock: limits kept, own entry held, no needless eviction; recent if no earlier stamp is later |
| `ResultCache.ResultCache.Lookup` | src/shaping.rs:108-136 | the second critical section: a hit iff this key stored a held, fresh body under the cursor, and then a chunk of that very body |
| `ResultCache.ResultCache.Fetch` | src/shaping.rs:100-136 | an uninterrupted fetch sweeps, keeps a recent cache recent, and hits iff the entry was held, fresh at both clock reads and of this key |
| `ResultCache.ResultCache.ShapeResult` | src/shaping.rs:227-247 | only a body over budget is cut and stored; head, cursor and length are its own |
| `ResultCache.ResultCache.ReadOn` | src/http/tools.rs:404-419 | a client fetching on from the head gets the stored body or nothing, and gets it while the entry is held and fresh |
| `ResultCache.ResultCache.ShapeAndReadOn` | src/shaping.rs:227-247 | end to end: shaping and fetching on returns the body, if the entry does not expire meanwhile |
| `ResultCache.RunCalls` | src/shaping.rs:75-143 | after any calls of store, fetch and sweep at times that do not decrease the cache is recent and within its limits, and every store is on record under its own cursor |
| `Integrity.RebasedPins` | src/integrity.rs:166-186 | a baseline holds one pin per name, taken from a descriptor of that name |
| `Integrity.HintIsRead` | src/integrity.rs:60-66 | a hint is read from `annotations` if it is a boolean there, else from the top level |
| `Integrity.RebasedIsFirst` | src/integrity.rs:166-186 | of several tools with one name the first is pinned, with its fingerprint and both hints |
| `Integrity.IntegrityBaseline.PinTools` | src/integrity.rs:166-186 | pinning skips names already pinned |
| `Integrity.IntegrityBaseline.Check` | src/integrity.rs:188-247 | the report is the additions, changes and flipped hints of the listed tools in their order, then one removal per unlisted pin |
| `Integrity.ReportMembers` | src/integrity.rs:188-247 | its events are exactly the drift against the pins |
| `Integrity.DriftEventIff` | src/integrity.rs:188-231 | which events a listed tool causes, with the values before and after |
| `Integrity.DriftInOrder` | src/integrity.rs:188-231 | tools are reported in their order |
| `Integrity.EventsInOrder` | src/integrity.rs:188-231 | and of one tool the change before the flipped hints, `readOnlyHint` first |
| `Integrity.IntegrityBaseline.Rebase` | src/integrity.rs:249-252 | the baseline is rebuilt from these tools alone |
| `Integrity.CheckAfterRebaseIff` | src/integrity.rs:188-252 | check right after rebase on the same tools is empty iff same-named tools agree |
| `Integrity.SameNameDrifts` | src/integrity.rs:188-252 | two different tools of one name drift right after a rebase on them |
| `Integrity.Isolate` | src/integrity.rs:281-319 | the event loop adds exactly the named tools of strict servers, with the owner's policy, and removes none |
| `Integrity.StrictIff` | src/integrity.rs:281-319 | the policies `quarantine` and `block` are strict, `warn`, no policy and no owner are not |
| `Integrity.OwnerIsFirst` | src/integrity.rs:281-319 | the owner of a name is the first server that lists it |
| `Integrity.CheckDrift` | src/integrity.rs:261-321 | for any snapshot the quarantine holds afterwards what it held and every name that drifted under a strict owner, with that owner's policy; the snapshot becomes the baseline |
| `Integrity.Refreshes` | src/integrity.rs:261-351 | over a whole history from the initial pin, exactly the names ever caught are quarantined |
| `Integrity.TrustedIff` | src/integrity.rs:188-252 | a definition that the last snapshot pins was pinned at the start and the only listing of its name ever after iff the name never drifted |
| `Integrity.TrustedWhenDistinct` | src/integrity.rs:188-252 | with distinct names that is: listed with the same fingerprint and hints in every snapshot |
| `Integrity.TrustedOrQuarantinedIff` | src/integrity.rs:166-351 | for any snapshots: the definition listed at the end is quarantined or was trusted throughout iff its name never drifted or drifted once under a strict owner |
| `Integrity.TrustedOrQuarantined` | src/integrity.rs:166-351 | safety for a name whose owner is strict whenever a refresh lists it |
| `Integrity.OwnerChangeEscapes` | src/integrity.rs:281-319 | a tool moving from a lax to a strict server escapes quarantine |
| `Integrity.PreimageInjective` | src/integrity.rs:41-57 | the hashed text determines name, description and schema |
| `Hex.DecodeDigest` | src/gateway_auth.rs:249-260 | decoding succeeds iff the text spells 32 bytes, and returns them |
| `Hex.ToDigitIff` | src/gateway_auth.rs:249-260 | the sixteen digits in both cases, and nothing else |
| `Hex.EncodeSpells` | src/admin/tokens.rs:144-146 | the hex text spells the bytes it encodes |
| `Hex.EncodeIsLower` | src/admin/tokens.rs:144-146 | digests are written in lower case |
| `Hex.DecodeEncode` | src/gateway_auth.rs:249-260 | decoding inverts encoding on every digest |
| `AuthState.BuildHolds` | src/gateway_auth.rs:118-156 | building from distinct keys holds exactly their credentials |
| `AuthState.SetTokenIsRebuild` | src/gateway_auth.rs:190-200 | rotating in place equals rebuilding from the edited credentials |
| `AuthState.ClearTokenIsRebuild` | src/gateway_auth.rs:203-208 | revoking in place equals rebuilding from the edited credentials |
| `AuthState.RunKeepsWellFormed` | src/gateway_auth.rs:190-231 | over every run token and legacy keys stay disjoint and each key owns at most one digest |
| `AuthState.BuildIsWellFormed` | src/gateway_auth.rs:118-156 | so they are after a build from distinct ids and digests |
| `AuthState.BuildMembership` | src/gateway_auth.rs:118-156 | with repeated ids any entry with a token makes a token key, the last entry decides about legacy mode |
| `AuthState.BuildDisjointIff` | src/gateway_auth.rs:118-156 | a build keeps the two kinds apart iff no id with a token ends with an entry without one |
| `AuthState.RepeatedIdIsBoth` | src/gateway_auth.rs:118-156 | a key listed with a token and again without one is of both kinds |
| `AuthState.HeldTokenAuthenticates` | src/gateway_auth.rs:159-187 | a held token authenticates as its key until the key's expiry |
| `AuthState.QueryKeyIff` | src/gateway_auth.rs:159-187 | a query key is accepted iff it is the id of a configured key without a token that has not expired |
| `AuthState.BearerIff` | src/gateway_auth.rs:159-187 | a bearer is accepted as `who` iff it is the unexpired token of `who`, whatever the query key says |
| `AuthState.ExpiredIff` | src/gateway_auth.rs:159-243 | the expired error is given iff the credential would have been accepted before its expiry, the missing error iff nothing was sent |
| `AuthState.IssuedTokenAuthenticates` | src/admin/tokens.rs:57-69 | an issued token authenticates as its key until it expires, and the id alone is refused |
| `AuthState.RotatedTokenRefused` | src/admin/tokens.rs:57-69 | the token it replaced is refused at once |
| `AuthState.OtherTokensUnaffected` | src/gateway_auth.rs:190-200 | the other keys' tokens answer as before |
| `GatewayAuth.GatewayAuth.InsertToken` | src/gateway_auth.rs:226-231 | the key's other digests go, the key leaves legacy mode |
| `GatewayAuth.GatewayAuth.SetToken` | src/gateway_auth.rs:190-200 | the in-place update is the value-level rotation |
| `GatewayAuth.GatewayAuth.ClearToken` | src/gateway_auth.rs:203-208 | the in-place update is the value-level revocation |
| `GatewayAuth.ReadCredential` | src/gateway_auth.rs:126-150 | reference before digest before legacy mode, with the error of the one that fails |
| `AuthState.CredentialOf` | src/gateway_auth.rs:126-150 | a reference decides before a digest, a digest before legacy mode; the expiry goes along, and each failure has its error |
| `GatewayAuth.FromConfig` | src/gateway_auth.rs:118-156 | the loop builds the state of the keys' credentials, and fails iff some credential cannot be read |
| `GatewayAuth.IssuedCredentials` | src/admin/tokens.rs:57-69 | the edited configuration has the edited credentials: storing a digest in hex loses nothing |
| `GatewayAuth.IssueAgreesWithConfig` | src/admin/tokens.rs:57-69 | the state built from the configuration that `issue_token` writes is the rotated state |
| `GatewayAuth.RevokeAgreesWithConfig` | src/admin/tokens.rs:91-98 | the state built from the configuration that `revoke_token` writes is the revoked state |
| `Semantic.AnswersInOrder` | src/semantic.rs:224-226 | sorting a response by index puts the embeddings in input order |
| `Semantic.EmbedTextShows` | src/semantic.rs:234-241 | below 2000 characters a change of the description shows in the embedded text |
| `Semantic.BatchSizes` | src/semantic.rs:189-192 | no request has more than 128 inputs, and none but the last has fewer |
| `Semantic.EmbedBatch` | src/semantic.rs:192-227 | a batch yields the embeddings of its inputs in order, and fails iff the endpoint does or answers with another number of them |
| `Semantic.Embed` | src/semantic.rs:189-230 | batches of 128 concatenate to the embeddings of all inputs in order; it fails iff one batch is not answered |
| `Semantic.RankingIsSortedPermutation` | src/semantic.rs:172-186 | the uncached ranking is a permutation of all candidates by score, then name |
| `Semantic.RankedByScore` | src/semantic.rs:165-186 | the more similar comes first, and of equally similar ones the smaller name; every score is that of a candidate's text |
| `Semantic.RankingIsCut` | src/semantic.rs:172-186 | a limit cuts the ranking after that many names |
| `Semantic.CacheIsTransparentIff` | src/semantic.rs:136-163 | whatever the cache holds, each candidate is scored by its own text iff names do not repeat with different texts |
| `Semantic.RepeatedNameSharesText` | src/semantic.rs:136-163 | of two uncached candidates with one name the second one's text scores both |
| `Semantic.CachedRankingIsRanking` | src/semantic.rs:130-186 | with one text per name the cached ranking is the uncached one |
| `Semantic.NothingMissingAfter` | src/semantic.rs:136-163 | with one text per name, what a call has embedded is not missing in the next |
| `Semantic.SemanticIndex.UpToDateVector` | src/semantic.rs:136-147 | a matching hash vouches for the cached vector |
| `Semantic.SemanticIndex.Fill` | src/semantic.rs:150-163 | the writes replace exactly the missing names' entries, of one name the last |
| `Semantic.SemanticIndex.Rank` | src/semantic.rs:130-186 | for any candidates the result is determined by the cache found, and it fails iff a batch of the missing texts or the query is not answered; with one text per name it is the ranking that embedding everything afresh gives |

## Assumptions that are parameters or preconditions

- The regular expression engine, SHA-256, the Unicode upper-case table (of which
  only "the ellipsis is not upper case" is used), lower-casing, the embedding
  endpoint, the similarity score, secret lookup and the clock are parameters.
- Distinct wire names are a hypothesis of the name-resolution lemmas and of the
  override-else-upstream half of the overlay results; that no edit is lost needs
  none. `from_config` does not enforce it. `McpRegistry` establishes it for the MCP
  part of every refresh taken by itself and says when overlapping refreshes keep it.
- `McpRegistry.AddsBetweenKeepNames` assumes distinct server ids, which the configuration
  loader does not enforce; the other registry results do not.
- Text hashes of the embedding cache do not collide. A regular expression set hits
  what one of its patterns matches, where `Policy.AllowedIff` is used.
- The round-robin cursor does not wrap within a run whose fairness is claimed (the
  cursor itself is modelled modulo 2^64), and a search has fewer than 2^64 results.

## Left out

- `unevaluatedItems`, `unevaluatedProperties`, `$ref` and `$id`-relative references in the validator: dropping `additionalProperties: true` interacts with the former; the projection itself treats these keywords as the source does.
- `compact_signature` and the type stubs: lossy display text.
- JSON numbers are reals, so `10` and `10.0` are one value; serde_json tells them apart in `as_u64`.
- CatalogPages: `include_schema` only selects what a search page prints.
- Catalog: a tool is its wire name, resource id and description; its other fields ride along unchanged.
- McpRegistry: health bookkeeping, connections, resources and templates; what upstream answers is arbitrary, and `from_peers`, which rejects duplicates, is a test entry.
- Integrity: security events and their storage.
- Integrity: times of first sight and last change, and the admin rebase between refreshes.
- AdminProtocol: writes to the database, which happen outside the lock, are not modelled and nothing is claimed about their order.
- AdminProtocol: key pools, limits and the authentication state that a swap also replaces.
- KeyPool: building the pools from a configuration and its validation errors.
- KeyStates.Select: what the random number generator draws is a parameter; that its draws are uniform is not modelled.
- KeyStates: a lease count does not overflow upwards at 2^32, and the EWMA update itself is floating point and left abstract.
- ResultCache: each critical section is one step and concurrent calls are any order of steps; the 64-bit counter does not wrap, and a poisoned mutex is not modelled.
- GatewayAuth: `from_config_unresolved`, header parsing and the middleware.
- Semantic.SemanticIndex.Rank: scores are reals, so a NaN similarity is not modelled; calls run one after the other, although the source takes its cache lock per phase.
- HTTP routing, upstream calls, OAuth, persistence, secret backends, rendering, egress rules, presets, content defense, limits, the CLI and the web console.
