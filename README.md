# valkyr core, modelled in Dafny

This project models the deterministic core of the valkyr TypeScript
monorepo and proves properties of that model:

- **The update engine of the embedded document store (`packages/db`).**
  - Positional `$` updates: splitting a field path such as `grades.$.std` at
    the `$`, finding the criteria condition that selects the array element,
    and rewriting only the first selected element of a cloned array.
  - The `$set` operator and its per-key `modified` flag.
  - The two `update` compositions: the older one with four operators and the
    current one with five, including `$inc`.
- **The store's facade and results.**
  - The insert acknowledgements.
  - The `Collection` control flow, including `findOne`/`count` over the query
    and `addOptions` (sort, then skip, then limit).
  - The `Storage` broadcast router.
- **The router (`packages/router`).**
  - Base normalisation and route-table flattening.
  - The routing tree as the ancestor chain, and first-match lookups.
  - The `goto` path/search split, and the query-string store's `set`/`unset`
    algebra.
- **The projector decorators (`packages/client`):** the per-class registration
  table that rejects a duplicate event/method pair.
- **The event-barrel generator (`sandbox/stores/build/Compilers/Events.ts`):**
  the export-line scan, the name, key and import-path derivation, and the
  text builders.

Modules follow the source files.

| Source | Dafny module |
|---|---|
| JSON values | `Json` |
| `Utils.ts` helpers and their `set.ts` copies | `PositionalUtils` |
| `$set` | `SetOperator` |
| Operator sequencing | `Composition`, `LegacyUpdate` (`Update.ts`), `Update` (`update.ts`) |
| `result.ts` | `InsertResult` |
| mingo cursor options | `Cursors` |
| `Collection.ts` | `Collection` |
| `Storage.ts` | `Storage` |
| `Router.ts` | `Router` |
| `Query.ts` | `QueryStore` |
| `Projector.ts` | `Projector` |
| `Events.ts` | `EventsCompiler` |
| JavaScript string built-ins | `Text` |

Code that mutates state is modelled as classes and methods over that state:
- documents are updated in place through `Json.JsonRef`;
- the positional rewrite runs over a cloned `array`;
- the collection records the requests it issues to its storage;
- the storage records its emissions and posts;
- the router's table and history pushes are fields of `Router.Router`;
- the query store's history pushes are fields of `QueryStore.Query`;
- the projector's per-class lists are a map field of `Projector.Registry`;
- the barrel builders are loops that accumulate strings.

Each method is proved against a specification function, and the promised
properties are proved about that function.

Foreign libraries are parameters or structural stand-ins:
- mingo's `Query.test` is an uninterpreted `Matcher`.
- mingo's cursor sort is an uninterpreted `Sorter`.
- `path-to-regexp` matching is an uninterpreted `RouteMatcher`.
- The bodies of `$unset`, `$push`, `$pull` and `$inc` are uninterpreted step
  functions.
- `dot-prop`, `fast-equals`' `deepEqual` and `clone` are structural
  functions over the JSON datatype.

JSON objects are sequences of (name, value) pairs, so property enumeration
order (`for … in`, spread) is kept.

## Model

| member | source | states |
|---|---|---|
| PositionalUtils.TrimSeparatorsLine | packages/db/src/Storage/Operators/Update/Utils.ts:125-127 | on a single line, trimming removes exactly the leading and the trailing run of dots and keeps the middle |
| PositionalUtils.TrimSeparatorsKeeps | packages/db/src/Storage/Operators/Update/Utils.ts:125-127 | a line with no dot at either end is left unchanged |
| PositionalUtils.SplitAtDollar | packages/db/src/Storage/Operators/Update/Utils.ts:80 | the key fails with a TypeError iff it has no `$`; otherwise the left part is the text before the first `$` and the right part runs up to the second `$` or the end |
| PositionalUtils.GetPositionalFilter | packages/db/src/Storage/Operators/Update/Utils.ts:79-97 | a key without `$` throws; otherwise path and target are the trimmed left and right parts of the key |
| PositionalUtils.GetPositionalCriteriaFilter | packages/db/src/Storage/Operators/Update/Utils.ts:99-123 | a criteria key yields a filter iff it contains the path and either contains "." or maps to an object-typed value; a remainder that does not trim away gives the one-entry object `{remainder: value}` |
| PositionalUtils.FirstQualifyingKeyDecides | packages/db/src/Storage/Operators/Update/Utils.ts:85-96 | no filter comes from the criteria iff no key qualifies; otherwise the first qualifying key in enumeration order decides, and with none the filter is `criteria[path]` |
| PositionalUtils.WholeKeyFilter | packages/db/src/Storage/Operators/Update/Utils.ts:108-113 | a qualifying key whose remainder trims to "" gives its `$elemMatch` when present, else the value itself |
| PositionalUtils.FirstMatch | packages/db/src/Storage/Operators/Update/Utils.ts:46-53 | the index found is the first element passing the test, or the length when none does |
| PositionalUtils.GetPositionalUpdate | packages/db/src/Storage/Operators/Update/Utils.ts:39-55 | in place: only the first element strictly equal to the scalar filter is replaced by the update value; every other element is unchanged |
| PositionalUtils.GetPositionalUpdateQuery | packages/db/src/Storage/Operators/Update/Utils.ts:57-77 | in place: only the first element the object filter matches changes, replaced whole when the target is "" and at its target sub-path otherwise |
| PositionalUtils.CloneArray | packages/db/src/Storage/Operators/Update/Utils.ts:29-31 | the clone is a fresh array holding the same elements |
| PositionalUtils.RewriteClone | packages/db/src/Storage/Operators/Update/Utils.ts:27-32 | the array written back is the clone after the query rewrite (object filter) or the value rewrite (scalar filter) |
| PositionalUtils.SetPositionalData | packages/db/src/Storage/Operators/Update/Utils.ts:11-37 | on an error the document is untouched; otherwise the rewritten array is written at the path and the flag is "not deep-equal to the original" |
| PositionalUtils.PositionalWriteErrors | packages/db/src/Storage/Operators/Update/Utils.ts:22-25 | "NOT ARRAY" is thrown iff the array path reads undefined; any other non-array fails as not iterable; the write succeeds iff there is an array |
| PositionalUtils.PositionalWriteWithoutMatch | packages/db/src/Storage/Operators/Update/Utils.ts:34-36 | when no element is selected the array is written back unchanged and no modification is reported |
| PositionalUtils.PositionalWriteModifiedChanges | packages/db/src/Storage/Operators/Update/Utils.ts:34-36 | a reported modification means a different array now stands at the path |
| SetOperator.SetSpec | packages/db/src/storage/operators/update/set.ts:22-24 | an omitted or empty `$set` leaves the document untouched and reports no modification |
| SetOperator.Set | packages/db/src/storage/operators/update/set.ts:22-35 | the in-place loop over the keys ends with the flag (or error) and document of the specification |
| SetOperator.SetFromIsOr | packages/db/src/storage/operators/update/set.ts:23-34 | the result flag is the OR of the per-key flags: a starting flag is ORed in and nothing else changes |
| SetOperator.PlainKeyReportsModified | packages/db/src/storage/operators/update/set.ts:29-31 | any key without `$` makes a run that does not throw report a modification |
| SetOperator.PlainSetNeverFails | packages/db/src/storage/operators/update/set.ts:24-33 | a `$set` with no positional key never throws, and it reports a modification iff it has a key |
| SetOperator.PlainSetWritesValue | packages/db/src/storage/operators/update/set.ts:30 | a plain key's value can be read back at its dot path |
| SetOperator.IdenticalPlainSetReportsModified | packages/db/src/storage/operators/update/set.ts:29-31 | writing `{a: 1}` over `{a: 1}` reports a modification and leaves the same document |
| SetOperator.PositionalOnUndefinedThrows | packages/db/src/storage/operators/update/set.ts:51-54 | a positional key whose array path reads undefined throws "NOT ARRAY" and stops the run with the earlier writes in place |
| SetOperator.ScalarFilterReplacesWhole | packages/db/src/storage/operators/update/set.ts:68-78 | with a scalar filter the first strictly equal element becomes `$set[key]`, whatever the target says |
| SetOperator.QueryFilterWritesTarget | packages/db/src/storage/operators/update/set.ts:80-94 | with an object filter only the first matching element changes, replaced whole for an empty target and at the sub-path otherwise |
| Composition.ComposeOkIffTrace | packages/db/src/storage/operators/update/update.ts:14-18 | a run succeeds iff every operator does, and otherwise fails with the first failing operator's error |
| Composition.TraceChains | packages/db/src/storage/operators/update/update.ts:14-18 | in a run that goes through, the first operator saw the input and each later operator saw the previous one's output |
| Composition.ComposeIsOrOfTrace | packages/db/src/storage/operators/update/update.ts:14-23 | a run whose operators all go through is modified iff some operator reported a change, and its document is the last operator's |
| Composition.ComposeAdvance | packages/db/src/storage/operators/update/update.ts:14-21 | one operator further into a run: a throwing operator ends it with its error, one that goes through adds its flag and hands its document on |
| Composition.ComposeFrom | packages/db/src/storage/operators/update/update.ts:14-18 | after an operator goes through, the run continues from the document it left |
| Composition.ComposeDropsNoop | packages/db/src/storage/operators/update/update.ts:18-21 | an operator that changes nothing and reports nothing can be dropped from the end of a run |
| Composition.Then | packages/db/src/storage/operators/update/update.ts:20-21 | an operator's flag is ORed into the outcome of the rest, and an error in the rest is passed on |
| Composition.Trace | packages/db/src/storage/operators/update/update.ts:14-18 | a successful trace has one entry per operator |
| Composition.RunStep | packages/db/src/storage/operators/update/update.ts:14-18 | the document takes the operator's output unless the operator throws, in which case it is untouched |
| LegacyUpdate.Steps | packages/db/src/Storage/Operators/Update/Update.ts:13-16 | exactly four operators, in the order `$set`, `$unset`, `$push`, `$pull` |
| LegacyUpdate.OperatorSteps | packages/db/src/Storage/Operators/Update/Update.ts:14-16 | the three operators after `$set`, in the order `$unset`, `$push`, `$pull` |
| LegacyUpdate.RunSet | packages/db/src/Storage/Operators/Update/Update.ts:13 | the in-place `$set` leaves exactly the document and flag of the `$set` step, or its error |
| LegacyUpdate.RunOperators | packages/db/src/Storage/Operators/Update/Update.ts:14-16 | `$unset`, `$push`, `$pull` on the clone in place give the outcome of composing those three steps |
| LegacyUpdate.Update | packages/db/src/Storage/Operators/Update/Update.ts:10-22 | the input document is unchanged; a fresh clone receives the operators and is returned with the OR of their flags |
| LegacyUpdate.CriteriaReachOnlySet | packages/db/src/Storage/Operators/Update/Update.ts:13-16 | without a `$set`, two different criteria give the same outcome |
| Update.Steps | packages/db/src/storage/operators/update/update.ts:14-18 | exactly five operators, in the order `$set`, `$unset`, `$push`, `$pull`, `$inc`; only `$set` and `$inc` take the criteria |
| Update.OperatorSteps | packages/db/src/storage/operators/update/update.ts:15-18 | the four operators after `$set`, in the order `$unset`, `$push`, `$pull`, `$inc` |
| Update.RunOperators | packages/db/src/storage/operators/update/update.ts:15-18 | `$unset`, `$push`, `$pull`, `$inc` on the clone in place give the outcome of composing those four steps |
| Update.Update | packages/db/src/storage/operators/update/update.ts:11-24 | the input document is unchanged; a fresh clone receives the operators and is returned with the OR of their flags |
| Update.WithoutIncMatchesLegacy | packages/db/src/storage/operators/update/update.ts:11-34 | without an `$inc` operand, and with an `$inc` body that then does nothing, the current update agrees with the older one |
| Update.CriteriaReachOnlySetAndInc | packages/db/src/storage/operators/update/update.ts:14-18 | without a `$set`, and with an `$inc` body blind to the criteria, two different criteria give the same outcome |
| InsertResult.GetInsertManyResult | packages/db/src/storage/operators/insert/result.ts:3-12 | always acknowledged; the count is the number of documents; the ids map has exactly the keys 0..n-1, with index i mapped to document i's id |
| InsertResult.EmptyInsertMany | packages/db/src/storage/operators/insert/result.ts:3-12 | no documents give a count of 0 and an empty id map |
| InsertResult.GetInsertOneResult | packages/db/src/storage/operators/insert/result.ts:14-19 | acknowledged with the document's id |
| InsertResult.InsertOneAgreesWithMany | packages/db/src/storage/operators/insert/result.ts:3-19 | the one-document acknowledgement carries the id a batch of one maps index 0 to |
| Cursors.ApplyOptionsWindow | packages/db/src/Collection.ts:186-197 | the cursor keeps a contiguous run of the (sorted if asked) documents, starting after the skipped ones and at most `limit` long |
| Cursors.NoOptionsKeepCursor | packages/db/src/Collection.ts:186-197 | with no sort, skip or limit the documents are unchanged |
| Cursors.AddOptions | packages/db/src/Collection.ts:186-197 | the same cursor is returned, its documents sorted if asked, then skipped, then limited |
| Collection.Select | packages/db/src/Collection.ts:165 | the query keeps exactly the stored documents the criteria match |
| Collection.SelectAppend | packages/db/src/Collection.ts:165 | the query keeps storage order: selecting from two runs of documents is selecting from the first, then from the second |
| Collection.SelectOne | packages/db/src/Collection.ts:165 | a single document is kept once iff the criteria match it |
| Collection.SelectFirst | packages/db/src/Collection.ts:165 | the first document the query yields is the first stored document the criteria match |
| Collection.Collection.Query | packages/db/src/Collection.ts:163-170 | a fresh cursor over the matching documents, with the options applied only when given |
| Collection.Collection.Find | packages/db/src/Collection.ts:124-128 | without options, exactly the stored documents the criteria match |
| Collection.Collection.FindOne | packages/db/src/Collection.ts:136-144 | undefined iff the query yields nothing; otherwise its first document |
| Collection.Collection.Count | packages/db/src/Collection.ts:152-154 | the number of documents the same query yields; zero iff `findOne` finds nothing |
| Collection.Collection.FindById | packages/db/src/Collection.ts:114-116 | found iff the id is in the storage's map, and then that document |
| Collection.Collection.InsertOne | packages/db/src/Collection.ts:33-35 | exactly one insert request, whose reply is returned |
| Collection.Collection.InsertMany | packages/db/src/Collection.ts:37-45 | one insert request per document, with replies in input order |
| Collection.Collection.UpdateOne | packages/db/src/Collection.ts:47-53 | with no match, a single failed entry carrying the not-found error and no storage request; otherwise one update of the first match's id |
| Collection.Collection.UpdateMany | packages/db/src/Collection.ts:55-68 | with no match, an empty result and no request; otherwise one update per matched document, with results in match order |
| Collection.PerDocumentUpdates | packages/db/src/Collection.ts:61-67 | request i updates the id of matched document i with the same criteria and actions |
| Collection.Collection.ReplaceOne | packages/db/src/Collection.ts:70-76 | with no match, an empty result (not an error entry) and no request; otherwise one replace of the first match's id |
| Collection.Collection.Delete | packages/db/src/Collection.ts:78-80 | one delete request, its reply the only entry |
| Collection.Collection.Flush | packages/db/src/Collection.ts:175-177 | one flush request to the storage |
| Collection.OptionsSelectWindow | packages/db/src/Collection.ts:163-170 | without a sort, the options pick a contiguous run of what the plain query yields |
| Storage.Storage.constructor | packages/db/src/Storage/Storage.ts:17-21 | a new storage is loading (`is("loading")` holds, `is("ready")` does not) and has emitted and posted nothing |
| Storage.Storage.Is | packages/db/src/Storage/Storage.ts:53-55 | holds iff the status equals the one asked about, so it never holds for two statuses at once; a new storage is loading and not ready |
| Storage.LocalEmission | packages/db/src/Storage/Storage.ts:68-77 | a flush emits on the flush stream iff the type is "flush"; any other type emits `{type, data}` on the change stream |
| Storage.ReceivedEmission | packages/db/src/Storage/Storage.ts:22-35 | a message is ignored iff its name differs; a "flush" goes to the flush stream, anything else is re-emitted unchanged |
| Storage.ReceivedMirrorsLocal | packages/db/src/Storage/Storage.ts:22-35 | another storage of the same name receiving the posted message emits on the same stream, with the same type and data, as the local broadcast did; a storage of another name ignores it |
| Storage.Storage.Broadcast | packages/db/src/Storage/Storage.ts:67-79 | emits locally per the type and posts exactly one `{name, type, data}` message; the status is unchanged |
| Storage.Storage.OnMessage | packages/db/src/Storage/Storage.ts:22-36 | never posts and leaves the status unchanged; ignores messages for other names; otherwise emits a flush or relays the message |
| Storage.AddOptions | packages/db/src/Storage/Storage.ts:126-137 | the same sort, skip and limit as the collection's `addOptions`; range, offset and index play no part |
| Router.NormaliseBase | packages/router/src/Router.ts:35 | a base of "" or "/" becomes ""; any other base is kept as given |
| Router.Router.constructor | packages/router/src/Router.ts:34-37 | the base is normalised; no routes, no resolved route, no history push |
| Router.FlattenKeepsWellFormed | packages/router/src/Router.ts:82-93 | registering keeps every parent link pointing to an earlier entry whose route lists the child |
| Router.Router.Register | packages/router/src/Router.ts:82-93 | the table grows by the routes in pre-order, each route before its children, and each child records the enclosing route as its parent |
| Router.RegisterStep | packages/router/src/Router.ts:83-91 | one loop turn extends the flattened prefix by the next route and its whole subtree |
| Router.FlattenSnoc | packages/router/src/Router.ts:83-91 | flattening one more route appends that route and its subtree after the earlier ones |
| Router.FlattenIsSiblings | packages/router/src/Router.ts:83-91 | the flattened routes are a run of siblings, each followed by its own children flattened under it |
| Router.SiblingsSnoc | packages/router/src/Router.ts:83-91 | one more sibling at the end adds its entry and its subtree after the others, whatever the subtrees are |
| Router.Router.Routes | packages/router/src/Router.ts:45-47 | a fresh array holding the table, so changing it leaves the table alone |
| Router.Ancestors | packages/router/src/Router.ts:197-204 | the chain starts at a root, ends at the entry, and each element is the parent of the next |
| Router.RoutingTreeIsAncestorChain | packages/router/src/Router.ts:197-204 | the routing tree is the ancestor chain's routes, root first and ending with the route itself |
| Router.Router.Resolution | packages/router/src/Router.ts:69-74 | an error iff no route has been set, otherwise the route set |
| Router.Router.SetRoute | packages/router/src/Router.ts:339-342 | afterwards `resolved` returns exactly the value set |
| Router.FirstMatchFrom | packages/router/src/Router.ts:364-372 | the first entry in registration order whose match is not false |
| Router.Router.GetRoute | packages/router/src/Router.ts:364-372 | undefined iff no route matches; otherwise a registered route that matches, with its params, and no earlier one matches |
| Router.Router.GetResolvedRoute | packages/router/src/Router.ts:351-357 | undefined iff `getRoute` finds nothing; otherwise its route and params with the search |
| Router.IndexById | packages/router/src/Router.ts:379-381 | the first entry with the id, or the table length |
| Router.Router.GetRouteById | packages/router/src/Router.ts:379-381 | undefined iff no route has the id; otherwise the first route that does |
| Router.SplitLocation | packages/router/src/Router.ts:281-286 | after the trailing "/" is dropped and the path split at "?", the pathname is never empty, and neither part holds a "?" |
| Router.GotoLocation | packages/router/src/Router.ts:281-288 | the pathname is never empty, and neither part holds a "?" |
| Router.GotoBaseNotDoubled | packages/router/src/Router.ts:281 | a path that already starts with the base gives the same location as the path without it: the base is added once, never doubled |
| Router.GotoWithBase | packages/router/src/Router.ts:281-288 | with a base, a plain path, with or without the base in front, is pushed as the base followed by the path, with no search |
| Router.GotoStopsAtSecondQuery | packages/router/src/Router.ts:281-286 | the search is the part between the first and the second "?"; whatever follows the second is dropped |
| Router.GotoWithoutBase | packages/router/src/Router.ts:281-288 | without a base, a path with no "?" and no trailing "/" is pushed as it is, with no search |
| Router.GotoSplitsSearch | packages/router/src/Router.ts:281-288 | the part after the only "?" becomes the search, the part before it the pathname |
| Router.GotoRoot | packages/router/src/Router.ts:281-288 | "/" loses its trailing slash and falls back to the pathname "/" |
| Router.Router.Goto | packages/router/src/Router.ts:280-290 | exactly one history push: the split location with the state |
| QueryStore.Query.constructor | packages/router/src/Lib/Query.ts:16-19 | the store is the parsed search; nothing has been pushed |
| QueryStore.Query.Replace | packages/router/src/Lib/Query.ts:73-75 | exactly one history push of the given store |
| QueryStore.Query.Set | packages/router/src/Lib/Query.ts:28-40 | one push: the current store with the key mapped to `String(value)`, or merged with the object; the current store is not touched |
| QueryStore.Merge | packages/router/src/Lib/Query.ts:35-38 | a key is present iff it is in the store or the object; the object's values win on conflicts; distinct names stay distinct |
| QueryStore.SetFieldKeepsUnique | packages/router/src/Lib/Query.ts:30-33 | writing one key keeps property names distinct |
| QueryStore.Query.Unset | packages/router/src/Lib/Query.ts:48-66 | one push: a copy of the store with the keys deleted, or the empty store when no key is given |
| QueryStore.UnsetKey | packages/router/src/Lib/Query.ts:58-60 | an absent key leaves the store as it is; an unset key reads undefined afterwards; every other key keeps its value and presence |
| QueryStore.UnsetAll | packages/router/src/Lib/Query.ts:51-56 | every listed key reads undefined afterwards; every unlisted key keeps its value and presence |
| QueryStore.RemoveField | packages/router/src/Lib/Query.ts:54 | deleting never makes the store longer |
| QueryStore.RemoveFieldKeepsOthers | packages/router/src/Lib/Query.ts:54 | deleting one property leaves every other property's value and presence as it was |
| QueryStore.RemoveFieldUnique | packages/router/src/Lib/Query.ts:54 | in a store with distinct names the deleted property is gone and names stay distinct |
| QueryStore.SetThenUnsetRestores | packages/router/src/Lib/Query.ts:28-66 | setting a key the store lacks and then unsetting it gives back the original store |
| Projector.CreateMappingDecorator | packages/client/src/Decorators/Projector.ts:45-49 | the decorator maps every event to a mapping with that event and the fixed method |
| Projector.OnEvent | packages/client/src/Decorators/Projector.ts:33 | `@On(event)` maps the event with method "on" |
| Projector.OnceEvent | packages/client/src/Decorators/Projector.ts:35 | `@Once(event)` maps the event with method "once" |
| Projector.AllEvents | packages/client/src/Decorators/Projector.ts:37 | `@All(event)` maps the event with method "all" |
| Projector.MethodOf | packages/client/src/Decorators/Projector.ts:51 | an omitted method is "on"; a given one is kept |
| Projector.FindProjection | packages/client/src/Decorators/Projector.ts:55 | the first entry with that event and method, or the length |
| Projector.Register | packages/client/src/Decorators/Projector.ts:51-64 | a violation naming method, event and class iff the pair is already listed; otherwise the entry is appended at the end and the list stays free of duplicates |
| Projector.RegisterTwiceFails | packages/client/src/Decorators/Projector.ts:55-60 | registering a pair a second time, under any key, is a violation |
| Projector.SameEventEveryMethod | packages/client/src/Decorators/Projector.ts:55 | the same event can be registered once under each of "on", "once" and "all" |
| Projector.Registry.RequestMapping | packages/client/src/Decorators/Projector.ts:51-68 | on a violation nothing is recorded; otherwise only the target class's list grows; no class's list ever holds a duplicate |
| EventsCompiler.ExportLineHasThirdWord | sandbox/stores/build/Compilers/Events.ts:70-71 | a line matching the export pattern has a third space-separated word |
| EventsCompiler.ThirdWord | sandbox/stores/build/Compilers/Events.ts:71 | the word taken holds no space |
| EventsCompiler.ExportNames | sandbox/stores/build/Compilers/Events.ts:69-73 | at most one name per line, none holding a space |
| EventsCompiler.GetExports | sandbox/stores/build/Compilers/Events.ts:65-75 | the loop collects the third word of every matching line of the content, in line order |
| EventsCompiler.DeclarationYieldsName | sandbox/stores/build/Compilers/Events.ts:3 | `export type <name>` matches the pattern, and its third word is the name |
| EventsCompiler.ExportsOfDeclarations | sandbox/stores/build/Compilers/Events.ts:65-75 | a file of one declaration per line yields exactly the declared names, in order |
| EventsCompiler.ExportsOfMatchingLines | sandbox/stores/build/Compilers/Events.ts:65-75 | lines that all match the export pattern yield their third words, in line order |
| EventsCompiler.FileOfDeclarations | sandbox/stores/build/Compilers/Events.ts:65-75 | the same holds for the content joined with line breaks and split again |
| EventsCompiler.StoreNameOfDirectory | sandbox/stores/build/Compilers/Events.ts:23 | the store name of a directory is its own name, lower-cased |
| EventsCompiler.KeyOfDirectory | sandbox/stores/build/Compilers/Events.ts:27 | the key of a directory under the root is its path relative to the root |
| EventsCompiler.EventsFileUnderRoot | sandbox/stores/build/Compilers/Events.ts:29 | with the root replaced by ".", the events file of a directory is "./" + its relative path + "/Events.ts" |
| EventsCompiler.ImportPathAsWrittenBreaks | sandbox/stores/build/Compilers/Events.ts:29 | as written, the directory `src/a.tsx` under `src` is imported from "./ax/Events.ts" |
| EventsCompiler.ImportPathOfDirectory | sandbox/stores/build/Compilers/Events.ts:29 | corrected, a directory under the root is imported from "./" + its key + "/Events" |
| EventsCompiler.ImportPathAgreesWithoutExtension | sandbox/stores/build/Compilers/Events.ts:29 | when the directory's path relative to the root holds no ".ts", the import path as written equals the corrected one |
| EventsCompiler.ImportPathOfExample | sandbox/stores/build/Compilers/Events.ts:29 | corrected, `src/a.tsx` under `src` is imported from "./a.tsx/Events" |
| EventsCompiler.CompileEntry | sandbox/stores/build/Compilers/Events.ts:22-31 | the entry recorded for a directory: its key, its lower-cased store name, its corrected import path (`ImportPath`, not the path as written) and the names its `Events.ts` exports |
| EventsCompiler.Imports | sandbox/stores/build/Compilers/Events.ts:42-45 | no entries give no import text |
| EventsCompiler.ImportsAppend | sandbox/stores/build/Compilers/Events.ts:42-45 | the imports of two runs of entries are the imports of each, one after the other |
| EventsCompiler.EachEntryImported | sandbox/stores/build/Compilers/Events.ts:42-45 | each entry's import block appears right after the blocks of the entries before it |
| EventsCompiler.GetEventImports | sandbox/stores/build/Compilers/Events.ts:40-47 | one import block per entry in entry order, then a final "\n"; no entries give "\n" |
| EventsCompiler.StoreLines | sandbox/stores/build/Compilers/Events.ts:53 | one `name: nameEvents` line per entry, in entry order |
| EventsCompiler.AllEventNames | sandbox/stores/build/Compilers/Events.ts:54 | an event name is collected iff some entry exports it |
| EventsCompiler.GetEventExports | sandbox/stores/build/Compilers/Events.ts:49-57 | prints every entry's events, concatenated in entry order, and one store line per entry |
| EventsCompiler.GetExportPrint | sandbox/stores/build/Compilers/Events.ts:77-85 | the union type, then the export list, then the events object |

## Left out

- mingo's `Query.test`, its cursor sort and the cursor's lazy evaluation are not interpreted. The matcher and sorter are parameters, and a cursor is the sequence of documents it yields.
- `dot-prop` is modelled on objects only. It does not descend into arrays, and escaped dots in paths are not handled. A write replaces a missing or non-object step on the way with `{}` and is dropped when the value written into is not an object.
- `clone` is a value copy, and `deepEqual` is structural equality that ignores property order.
- Numbers are mathematical integers, so floating point and NaN are not modelled. Integer-like property names are not moved to the front of enumeration order as JavaScript does.
- The bodies of `$unset`, `$push`, `$pull` and `$inc` are not part of this model. They are uninterpreted steps.
- The older `Storage/Operators/Update/Set.ts` that `Update.ts` calls is not part of this model. The `$set` of `storage/operators/update/set.ts` stands in for it.
- `set.ts` imports its `getPositionalFilter` from a lower-case `utils.ts` that is not part of this model. The one of `Utils.ts` is used in its place.
- Calling `setPositionalData` directly on a value that is neither undefined nor an array gives the not-iterable error. It is not separately modelled for strings, which JavaScript would iterate character by character.
- `packages/db/src/observe/observe.ts`, the storage operation queue, status transitions beyond "loading", and the storage's `resolve`, load and commit are not modelled. They are async or their code is not shown.
- `BroadcastChannel` delivery and `nanoid` are not modelled. The channel is the `posted` sequence of messages, and the id is a constructor parameter.
- `history`, `window.location`, `toQueryString`/`toQueryObject` and `ValueStore` are not modelled. A history push is recorded as the store or location pushed, and `Query.toString` is left out with them.
- `Route.ts` is not part of this model, so `register` does not prefix routes with the base and `match` is a parameter.
- Routes are values and their parents are table indices. Aliasing of mutable route objects is not captured: in the source, registering the same route object twice overwrites its `parent`.
- The router's async `#resolve`, `#execute`, `listen` and `getRender` are left out.
- The `Projector()` class decorator and `onProjectorInit` are left out. They subscribe to the ledger and log to the console.
- The directory walk of `getEvents` and the file read of `getExports` are left out. The content is a parameter, and `CompileEntry` builds one entry.
- EventsCompiler.CompileEntry: records the corrected import path `ImportPath`, not the path as written at Events.ts:29. The two agree whenever the relative path holds no ".ts" (`ImportPathAgreesWithoutExtension`); see "## Findings" for the input where they differ.
- Text.ToLower, and with it EventsCompiler.StoreName: only the ASCII letters A to Z are lower-cased. JavaScript's full Unicode case mapping of `toLowerCase` is not modelled.
- In the `Collection` class, the fields `data` (the documents queries search) and `documents` (the map `findById` reads) are not tied by an invariant. Both belong to the storage, whose loading and bookkeeping are not part of this model.
- The "Failed to extract store name" throw in `getEvents` is not modelled because it cannot happen: a split always yields a last part.
- The line test of `getExports` is modelled as "holds `export type ` followed by a letter". This is what the global regular expression's `match` accepts.
- SetOperator.Set: a non-positional key always reports a modification, even when it writes the value already present, as the code does. A description of `$set` as idempotent in that sense is not followed.

## Findings

| source | as written | input that shows it | evidently intended | confidence | as-written member | corrected member |
|---|---|---|---|---|---|---|
| sandbox/stores/build/Compilers/Events.ts:29 | `.replace(".ts", "")` removes the first ".ts" anywhere in `path/Events.ts` | directory `src/a.tsx` with root `src` gives "./ax/Events.ts" | strip the extension of the trailing `Events.ts` only, giving "./a.tsx/Events" | not executed | EventsCompiler.ImportPathAsWrittenBreaks | EventsCompiler.ImportPathOfDirectory |
