# Verified models of ApiFn and AuthFn

This project models the parts of the repository where strings, trees, graphs and concurrent requests
interact, and proves what they promise. Each module follows one source file, or one protocol.

- **From router paths to the mock server.** A router path `:id` becomes `{id}`, then the template
  `{{id}}`, then a concrete address; the mock server compiles the path into a pattern and captures the
  values again. These are four scanners in four files; the ones that loop are methods proved against a
  pure function of the text, and the functions are proved to undo each other (`RoutePaths`, `BasePaths`, `MockRoutes`,
  `MockServer`, `Variables`, `VariableTags`, `PathPipeline`).
- **Collections on disk.** The generator makes a tree of requests from an OpenAPI document, the writer
  flattens it to files, the reader rebuilds it from a flat set of paths (`Generator`,
  `GeneratorNames`, `GeneratedRequests`, `GeneratedFiles`, `GeneratedCollections`, `Collections`, `CollectionPaths`,
  `CollectionWriter`, `CollectionReader`, and the proofs in `CollectionEntries`, `CollectionRebuild`, `CollectionFiles`,
  `CollectionRoundTrip`, `CollectionReread`). Nothing is written outside the root (`CollectionContainment`), and
  nothing in a directory is overlooked, whoever wrote it (`CollectionReading`).
- **Mock replies.** Which schemas generate a value that the mock's own validator accepts (`MockSchema`), and
  which errors it reports (`MockSchemaErrors`).
- **Concurrent protocols.** Handoff codes, the account-deletion fence and cookie sessions are state
  machines: a request is a program counter, a database or directory call is one atomic step, a run is
  any sequence of steps of any number of requests and of the outside world (`Handoff`, `DeletionFence`,
  `CookieSessions` with their invariants and theorems; `PlacementDirectory` is the directory itself). Besides
  what no run can do, they say what a request comes to: why it is refused, and that it completes when nothing
  is in the way (`HandoffOutcomes`, `DeletionFenceAlone`, `CookieSessionOutcomes`).
- **Client state machines.** The Svelte session store and the regional client (`SessionStore`,
  `RegionalClient`, `RegionalOutcomes`).
- **Graph closure.** The schema collector of the discovery script (`Discovery`, `DiscoveryMethods`).
- **Encodings, indexes, comparison.** Unpadded base64url, the operator store with joined keys, cursor
  paging, the OpenAPI diff (`Base64Url`, `OperatorStore`, `Paging`, `OpenApiDiff`).

`Text` and `Sorting` hold what the language itself provides: searching, trimming, the stable sort. `OpenApi` holds
what the tools share of a document.

Loops and objects that the source updates in place are methods and classes; each is proved to compute a
function of its inputs, and the properties are lemmas about that function. `dafny verify dfyconfig.toml`
checks everything.

The model follows the code where that is surprising, too. These results say so:

- Running interpolation twice is not always the same as running it once. It is, for all templates, exactly
  when no available value can open a tag: none holds `{{` or ends with `{`
  (`Variables.IdempotentExactly`).
- The values of two parameters in one path segment cannot always be told apart; one parameter per
  segment is exactly the condition (`MockRoutes.CapturesDetermined`).
- A cookie session can be returned although it was revoked by then
  (`CookieSessionSafety.ReturnedThoughRevoked`). It was live when the request read it
  (`CookieSessionSafety.ReturnedWasLive`), and it is unrevoked exactly if no step since that read deleted or
  revoked it; these steps are named (`CookieSessionSafety.ReturnedStandsUnlessEnded`).
- Mounting twice is not mounting below the mounted base when there is no base at all and the path starts
  with two slashes; otherwise it is (`BasePaths.MountsCompose`).
- A tombstone takes a fenced placement out of `deleting` without owning the fence
  (`DeletionFenceSafety.TombstoneOverridesFence`); every other release is by the owner
  (`DeletionFenceSafety.OnlyTheOwnerReleases`).
- A failed deletion leaves its placement fenced when the fence took the last epoch
  (`PlacementDirectory.FailedDeletionUndone`).
- An absent and an empty environment share their keys in the operator store, and so can scopes that hold
  a NUL (`OperatorStore.UncleanKeysCollide`, and exactly which in `OperatorStore.ScopesCollide`).
- A generated collection is not always the one that is read back, for instance when an operation is called
  "folder" (`GeneratedCollections.NamedFolder`); the documents for which it is are those with good names
  (`GeneratedCollections.GeneratedSurvives`).
- Two spellings of one HTTP method in a path item hide one another in the diff, unless their parameters
  are the same (`OpenApiDiff.SpellingsExact`).
- In `withBasePath` the branch for a base that is a single slash is never taken, because trailing slashes
  were removed before; `BasePaths.WithBaseIsJoined` is the path without that branch.

## Model

| member | source | states |
|---|---|---|
| RoutePaths.ToOpenApiPath | apifn/core/src/introspect.ts:69-100 | The scanner of router paths returns the OpenAPI text and the names of the structure that `:name` marks out |
| RoutePaths.ScanSound | apifn/core/src/introspect.ts:69-100 | The structure the scanner finds prints back to the very path it came from, and is in normal form |
| RoutePaths.ScanComplete | apifn/core/src/introspect.ts:69-100 | Every structure in normal form is found again from its text, so paths and structures correspond one to one |
| BasePaths.MountedIsRooted | apifn/core/src/introspect.ts:40-67 | A mounted path starts with a slash, and trailing slashes of the base change nothing |
| BasePaths.MountsCompose | apifn/core/src/introspect.ts:48-67 | Mounting a mounted path is mounting below the mounted base, for any slashes anywhere, if and only if there is a base or the path does not start with two slashes |
| MockRoutes.CompilePath | apifn/mock/src/server.ts:42-67 | The loop returns the pieces and the parameter names of the structure that the braces mark out |
| MockRoutes.CompileSound | apifn/mock/src/server.ts:42-67 | That structure prints back to the API path |
| MockRoutes.CompileComplete | apifn/mock/src/server.ts:42-67 | Every brace-free structure is found again from its text |
| MockRoutes.MatchesIffFill | apifn/mock/src/server.ts:56-66 | A pattern accepts a text with these captures exactly if the text is the path filled with them and each is a non-empty slash-free segment |
| MockRoutes.FillInjective | apifn/mock/src/server.ts:56-66 | With a slash between any two parameters, equal texts come from equal captures |
| MockRoutes.Ambiguous | apifn/mock/src/server.ts:56-66 | Without it, there is a text with two different captures |
| MockRoutes.CapturesDetermined | apifn/mock/src/server.ts:56-66 | Captures are unique for all texts if and only if no segment holds two parameters |
| MockServer.BuildRoutes | apifn/mock/src/server.ts:161-174 | The nested loops build the table: each path and each method in order, with its compiled pattern |
| MockServer.TableReplies | apifn/mock/src/server.ts:161-213 | The replies are those that the document alone says: the operation of the first path that has one for the method and of which the text is an instance, with the segments of such an instance; not found if there is none |
| PathPipeline.TemplateText | apifn/collections/src/generator.ts:44-46 | Replacing `{name}` by `{{name}}` turns the OpenAPI text of a structure into its template |
| PathPipeline.CompiledNames | apifn/mock/src/server.ts:42-67 | The mock server finds in the OpenAPI path the structure, hence the names, that the router path had |
| PathPipeline.InterpolatedUrl | apifn/collections/src/generator.ts:155 | The generated address is interpolated to the base address followed by the path with the bound values |
| PathPipeline.PathRoundTrip | apifn/collections/src/variables.ts:35-88 | End to end: rewritten, templated and interpolated, a path is accepted by its compiled pattern with exactly the bound values as its only captures |
| PathPipeline.RecordBinds | apifn/mock/src/server.ts:209-213 | The parameter record maps every name to its bound value |
| PathPipeline.RequestServed | apifn/mock/src/server.ts:198-213 | In the table of a document the request reaches its own operation with those parameters, unless the text is an instance of an earlier path with an operation for the method; then the first such path serves it |
| Variables.Interpolate | apifn/collections/src/variables.ts:35-88 | The cursor loop computes substitution, tag by tag, on the parsed template, warnings and missing environment names included |
| Variables.ParseSound | apifn/collections/src/variables.ts:42-60 | Parsing loses nothing: printing the parsed template gives the text, and its parts are well formed |
| Variables.ParseComplete | apifn/collections/src/variables.ts:42-60 | Every well-formed template is found again from its text |
| Variables.ResidualStable | apifn/collections/src/variables.ts:35-88 | One substitution prints a template that a second substitution leaves as it is, with the same warnings |
| Variables.InterpolateTwice | apifn/collections/src/variables.ts:35-88 | Interpolation is idempotent when no available value holds `{{` or ends with `{` |
| Variables.UnclosedBreaks | apifn/collections/src/variables.ts:35-88 | For every other value there are a template and one binding of that value for which the second pass differs |
| Variables.IdempotentExactly | apifn/collections/src/variables.ts:35-88 | Interpolation with values from a set is idempotent for all templates if and only if no value of the set holds `{{` or ends with `{` |
| VariableTags.EnvironmentTag | apifn/collections/src/variables.ts:62-73 | A tag `process.env.NAME`, with any white space around it, is replaced by that variable of the process and by nothing else; if there is none the interpolation ends with an error that names it |
| VariableTags.ContextTag | apifn/collections/src/variables.ts:75-84 | Any other tag is replaced by the context value of its trimmed name, or stays, with a warning |
| Collections.SortRecovers | apifn/collections/src/reader.ts:30-39 | Sorting by number, then name, any arrangement of a strictly ordered list gives the list |
| Collections.OrderExact | apifn/collections/src/reader.ts:30-39 | Lower numbers come first; an item without a number has the largest safe integer; equal numbers go by the name |
| Collections.SortKeepsTies | apifn/collections/src/reader.ts:30-39 | Items that the order holds equal stay in the order that they came in |
| CollectionPaths.GoodPathSafe | apifn/collections/src/writer.ts:6-24 | The path check keeps a path of good segments as it is; which paths it refuses is `CollectionContainment.SafePathExact` |
| CollectionContainment.SafePathExact | apifn/collections/src/writer.ts:6-24 | The path check refuses exactly the paths that are empty, begin or end with a separator, have a segment "." or "..", or begin with ".."; of any other it keeps the text, with one slash for each run of separators |
| CollectionContainment.WriterRefuses | apifn/collections/src/writer.ts:42-63 | A folder, or a request with a payload, is refused for its path exactly if that is unsafe in this sense, and then no file has changed |
| CollectionContainment.CollectionInside | apifn/collections/src/writer.ts:42-92 | Whatever the collection, also when the writer stops early: no file disappears, and every file that is new or changed has a path that is not empty, not absolute, and has no segment that is empty, "." or ".." |
| CollectionContainment.EnvironmentsRefuse | apifn/collections/src/writer.ts:26-31 | The environments are all written if and only if their names are non-empty, of letters, digits, dots, dashes and underscores, and not "." or ".."; else the first other name is refused |
| CollectionWriter.Directory.WriteItem | apifn/collections/src/writer.ts:42-63 | Writing an item leaves exactly the files of its specification, or stops with its error; what the specification refuses and where it writes is stated in `CollectionContainment` |
| CollectionWriter.Directory.WriteCollection | apifn/collections/src/writer.ts:65-92 | So does writing a collection, environments included |
| CollectionReader.BuildFolderItems | apifn/collections/src/reader.ts:41-102 | The recursive builder computes the specified items; it ends because paths get longer |
| CollectionReader.ReadCollection | apifn/collections/src/reader.ts:104-175 | Reading computes the specified collection, or nothing without a root file |
| CollectionReading.RequestsExact | apifn/collections/src/reader.ts:41-58 | For any directory, whoever wrote it: the requests anywhere in the tree are exactly the files with both sections that are no root, folder or environment file; each lies in the folder of its own directory, with the name and number that it gives, or the name of its file |
| CollectionReading.FoldersExact | apifn/collections/src/reader.ts:83-97 | Every folder of the tree is a directory with a request or folder file in it or below, lies in the folder of its own directory, and has the name and number of its folder file, or its own name |
| CollectionReading.FoldersThere | apifn/collections/src/reader.ts:60-102 | Every such directory is a folder of the tree, however deep |
| CollectionReading.RootExact | apifn/collections/src/reader.ts:104-175 | At every level no item comes twice and the items are sorted; there is an environment for each stem below `environments/`, as the last listed file of that stem has it; the root file gives name, description and version, and without a name it is "Collection" |
| CollectionRebuild.BuildRecovers | apifn/collections/src/reader.ts:41-102 | From any context that represents a well-formed tree the builder rebuilds exactly that tree |
| CollectionFiles.WritesEntries | apifn/collections/src/writer.ts:42-63 | Writing a well-formed tree stores one file for each request and folder, and no other file changes |
| CollectionFiles.LoadsCollection | apifn/collections/src/reader.ts:116-160 | Loading the written files, in any order, gives a context that represents the tree, and its environments |
| CollectionRoundTrip.WritesFiles | apifn/collections/src/writer.ts:65-92 | Writing a well-formed collection to an empty directory succeeds and leaves exactly its files |
| CollectionRoundTrip.RoundTrip | apifn/collections/src/reader.ts:104-175 | Reading back what was written gives the same collection, for every well-formed tree of any depth |
| CollectionReread.BuildWellFormed | apifn/collections/src/reader.ts:41-102 | What the reader builds from a plain directory is well formed unless two siblings tie in the sort |
| CollectionReread.ReadWriteRead | apifn/collections/src/reader.ts:104-175 | A collection that was read from a directory of plain file names, with no siblings that tie in the sort, can be written and read again with the same result |
| Generator.CollectOperations | apifn/collections/src/generator.ts:163-180 | The nested loops collect the operations in the order of paths and methods |
| Generator.OpenAPIToCollection | apifn/collections/src/generator.ts:249-289 | Collecting, grouping in a map and building the folders computes the specified collection |
| Generator.Groups.ToFolderItems | apifn/collections/src/generator.ts:213-247 | Folders come in the order of their keys, requests in the order of path and method, both numbered from one |
| GeneratedRequests.RecordsExact | apifn/collections/src/generator.ts:163-180 | The collected operations are those of the document, each once |
| GeneratedRequests.RequestsAreOperations | apifn/collections/src/generator.ts:187-247 | Each generated request is that of an operation of the document, in the folder of its group, with its position as its number; the folder has the title of its key and its own position |
| GeneratedRequests.OperationsArePlacedOnce | apifn/collections/src/generator.ts:249-289 | Each operation of the document has one position in the collection, and only one |
| GeneratedRequests.NothingElse | apifn/collections/src/generator.ts:213-289 | The collection holds folders only, none of them empty, and each of their requests has a position |
| GeneratedRequests.MembersInOrder | apifn/collections/src/generator.ts:226-231 | The requests of a folder are sorted by path, then method |
| GeneratedRequests.FoldersInOrder | apifn/collections/src/generator.ts:219-221 | The folders are sorted by key |
| GeneratorNames.SlugExact | apifn/collections/src/generator.ts:30-36 | A slug is the words of letters and digits of the lower-case text, with one dash between any two |
| GeneratorNames.GroupOfPath | apifn/collections/src/generator.ts:182-185 | The group of a path is the slug of its first non-empty segment, or "root" if it is all slashes |
| GeneratorNames.GroupsBy | apifn/collections/src/generator.ts:257-262 | Grouped by tag, an operation goes by its first tag, or by its path without one; grouped by path it goes by the path whatever its tags |
| GeneratorNames.RequestIs | apifn/collections/src/generator.ts:108-161 | A request is named by the operation identifier, else the summary, else the method and path; it sends the method to the templated path below the base address |
| GeneratorNames.FileIs | apifn/collections/src/generator.ts:187-198 | Its file is called after the words of its name, or else after the method and the words of the path |
| GeneratorNames.BaseAddress | apifn/collections/src/generator.ts:268-288 | The one environment holds the base address only: the option, else the first server, else the local default |
| GeneratedFiles.FileNameShape | apifn/collections/src/generator.ts:187-198 | Every generated file name is a path segment that the writer takes |
| GeneratedCollections.GeneratedPlain | apifn/collections/src/writer.ts:65-92 | For every document, the writer leaves a directory of plain file names, also when it stops early |
| GeneratedCollections.GeneratedWellFormed | apifn/collections/src/generator.ts:187-289 | The result meets the precondition of the round trip if and only if group keys and file names are good |
| GeneratedCollections.GeneratedSurvives | apifn/collections/src/generator.ts:249-289 | For every document and every listing order: the generated collection is read back from what was written of it if and only if every group has a key other than `environments` and files of different names, none of them `folder.yml`, the environment has a safe name with no leading dot, and neither version nor description is empty |
| GeneratedCollections.NamedFolder | apifn/collections/src/generator.ts:187-198 | So with an operation called "folder" the collection that is read back is another one |
| MockSchema.GenerateFromSchema | apifn/mock/src/response-generator.ts:17-56 | The generator, with its loop over properties, computes the specified sample |
| MockSchemaErrors.SamplesFit | apifn/mock/src/response-generator.ts:17-56 | The samples of the formats date, date-time, email, uuid and uri are texts of these forms |
| MockSchemaErrors.SampleShapes | apifn/mock/src/response-generator.ts:17-56 | An array sample has one item, that of its item schema or null; an object has exactly the declared members; an empty choice gives no value |
| MockSchema.Validator.ValidateValue | apifn/mock/src/request-validator.ts:26-106 | The accumulating validator appends exactly the errors of the value, in order, to those before |
| MockSchema.NoErrors | apifn/mock/src/request-validator.ts:26-106 | It appends none exactly if the value conforms to the schema |
| MockSchemaErrors.ErrorsExact | apifn/mock/src/request-validator.ts:26-106 | For every value and schema: an error, with its kind and path, is reported if and only if some place inside the value, reached by members and items as the path spells it, breaks that keyword of the schema there |
| MockSchema.SampleConforms | apifn/mock/src/response-generator.ts:17-56 | The sample of a schema conforms to it if and only if the schema fits: a condition on its own keywords, level by level |
| MockSchema.ValidatorAcceptsSample | apifn/mock/src/request-validator.ts:26-106 | So the validator accepts what the generator made if and only if the schema fits |
| HandoffInvariant.RunKeepsInv | authfn/native-handoff/src/index.ts:337-429 | Every reachable state of the handoff machine satisfies the invariant |
| HandoffSafety.OneSessionPerCode | authfn/native-handoff/src/index.ts:401-429 | However requests interleave, a code gives at most one session |
| HandoffSafety.IssuedAfterConsumption | authfn/native-handoff/src/index.ts:135-153 | A session is issued only by the one request whose update set the code's `consumedAt` from null |
| HandoffSafety.ExactlyOneWinner | authfn/native-handoff/src/index.ts:401-429 | Among requests at the conditional update exactly one wins if any found the row, and all others end with a conflict |
| HandoffSafety.IssueKeepsIdentity | authfn/native-handoff/src/index.ts:140-153 | An issued session has the user of the source session, comes out of the handler that the code was made for, and has the region of the code, which is that of the consuming cell if it has one |
| HandoffSafety.ChainKeepsUser | authfn/native-handoff/src/index.ts:178-226 | Along any chain of handoffs the user stays that of the first session |
| HandoffSafety.EverySessionHasARoot | authfn/native-handoff/src/index.ts:178-226 | Every session goes back by such a chain to one that was signed in |
| HandoffSafety.BlockedNeverIssues | authfn/native-handoff/src/index.ts:337-395 | A request whose own checks are still to come and meet an expired code, or a session that is expired, revoked or deleted, never creates a code or issues a session, whatever happens next; that the others succeed is `HandoffOutcomes.ConsumesAlone` |
| HandoffOutcomes.FailedExactly | authfn/native-handoff/src/index.ts:337-429 | In every run, a request has failed for a reason if and only if, at one of its own steps, the database gave that reason: each of the eleven is a condition on the session, code and user tables, the clock and the row that the request read |
| HandoffOutcomes.RowWasRead | authfn/native-handoff/src/index.ts:348-356 | The row that a request goes by was the code's row in the table when that request looked it up, and for its target |
| HandoffOutcomes.ConsumesAlone | authfn/native-handoff/src/index.ts:212-226 | From any state, a request to exchange or consume a code whose steps then come alone fails for the first reason that there is and changes nothing else; without one it marks the code as consumed and issues a new session of the code's user, source and region, and touches no other row |
| HandoffOutcomes.StartsAlone | authfn/native-handoff/src/index.ts:177-204 | A request to start a handoff whose steps then come alone makes an unconsumed code for its session's user, from its session, for the cell's region; it fails if the session is not live, its user is gone or there is no region |
| PlacementDirectory.Directory.PutIfAbsent | authfn/core/src/core/gateway-routing.ts:147-153 | The in-memory insert: refused for an invalid or existing record, and then nothing changes |
| PlacementDirectory.Directory.CompareAndSet | authfn/core/src/core/gateway-routing.ts:154-170 | The in-memory compare-and-set: it writes exactly if epoch and state are the expected ones and the record is valid |
| PlacementDirectory.Directory.Fence | authfn/core/src/core/gateway-routing.ts:738-776 | A fence is got exactly on an active placement, one epoch further; otherwise nothing changes |
| PlacementDirectory.Directory.Release | authfn/core/src/core/gateway-routing.ts:779-850 | Finalising and restoring take effect exactly for the epoch of the standing fence |
| PlacementDirectory.Directory.DeleteAccount | authfn/core/src/core/account.ts:86-183 | A deletion alone with the directory: what it leaves behind, and exactly when it succeeds |
| PlacementDirectory.FailedDeletionUndone | authfn/core/src/core/gateway-routing.ts:816-850 | A failed deletion is undone, but for two epochs and a target, if and only if its fence did not take the last epoch; else the placement stays fenced |
| PlacementDirectory.RoutedKeyCounts | authfn/multi-region/src/index.ts:439-459 | The identity that is fenced is independent of the key that the request was routed by if and only if the deletion is delegated |
| PlacementDirectory.DelegatedDeletionStaysInAccount | authfn/multi-region/src/index.ts:439-459 | A delegated deletion changes no placement but that of the account's user or address, and none without these |
| PlacementDirectory.KeyPreferred | authfn/multi-region/src/index.ts:439-459 | Delegated, the key is that of the user, else of the address; direct, it is the routed key, else that of the address, else of the user; it is empty only without all of these |
| DeletionFenceInvariant.RunKeepsInv | authfn/core/src/core/gateway-routing.ts:633-850 | Every reachable state of the placement machine satisfies the invariant |
| DeletionFenceSafety.RecordsStayValid | authfn/core/src/core/gateway-routing.ts:633-850 | In every run, a directory of valid placements holds valid placements |
| DeletionFenceSafety.EpochsCountWrites | authfn/core/src/plugin-types.ts:141-159 | In every run an identity's epoch grows by exactly one with each write, so no epoch is ever stored twice |
| DeletionFenceSafety.OneOwner | authfn/core/src/core/gateway-routing.ts:738-776 | A fence, key and epoch, was stored by one operation only |
| DeletionFenceSafety.OnlyTheOwnerReleases | authfn/multi-region/src/index.ts:188-260 | A fenced placement changes only by the operation that stored that fence, which tombstones it or gives it back, or by a tombstone call |
| DeletionFenceSafety.TombstoneOverridesFence | authfn/core/src/core/gateway-routing.ts:713-736 | After any run in which an operation holds a fence, a tombstone call that never stored it tombstones the placement, and leaves the owner's epoch stale |
| DeletionFenceSafety.StaleNeverWrites | authfn/core/src/core/gateway-routing.ts:779-850 | From the time its fence is gone, no later step of the operation is written: a stale epoch never releases a later fence |
| DeletionFenceSafety.LoserWritesNothing | authfn/multi-region/src/index.ts:246-260 | An operation that lost the fence writes nothing, in its failure hook or ever |
| DeletionFenceSafety.OwnerReleases | authfn/multi-region/src/index.ts:220-260 | An owner whose fence stands and who is let run releases it, unless the epochs have run out; which way is `DeletionFenceAlone.OwnerFinishes` |
| DeletionFenceAlone.OwnerFinishes | authfn/multi-region/src/index.ts:220-260 | From any state, an owner whose fence stands and whose steps then come alone tombstones the placement and ends as deleted if the account's deletion succeeded, makes it active again and ends as restored if it failed; without an epoch left it is refused and the fence stays |
| DeletionFenceAlone.DeleteAlone | authfn/multi-region/src/index.ts:188-260 | A deletion that arrives at any time and is then alone leaves exactly the directory that the specification of a lone deletion says, and ends accordingly |
| DeletionFenceAlone.MoveAlone | authfn/core/src/core/gateway-routing.ts:633-711 | A move that is then alone takes an active placement of its source to the target in two epochs, or back; if it is abandoned or finds no epoch the placement stays as moving, and a placement of another state or region is left as it was |
| DeletionFenceAlone.TombstoneAlone | authfn/core/src/core/gateway-routing.ts:713-736 | A tombstone call that is then alone tombstones any placement that is not yet one, one epoch further |
| DeletionFenceAlone.ClaimAlone | authfn/core/src/core/gateway-routing.ts:334-357 | A claim inserts an active placement at the first epoch exactly if the identity has none and the record is valid |
| DeletionFenceSafety.StoreBackedIsAtomic | authfn/core/src/core/gateway-routing.ts:198-223 | Over any store, reading the record and comparing its whole text later does what the atomic compare-and-set does |
| CookieSessionSafety.ReturnedWasLive | authfn/python/authfn/http.py:205-254 | A session is returned only if its row was in the table, unrevoked and unexpired, at that request's own read |
| CookieSessionSafety.ReturnedThoughRevoked | authfn/python/authfn/http.py:244-254 | It may have been revoked between that read and the touch |
| CookieSessionSafety.StandsUnlessEnded | authfn/python/authfn/http.py:205-270 | From any reachable state, an unrevoked session is unrevoked later if and only if no step between deleted it or was one of those that revoke it |
| CookieSessionSafety.ReturnedStandsUnlessEnded | authfn/python/authfn/http.py:205-254 | A returned session is unrevoked if and only if no step since the request's own read ended it, and live if and only if it has not expired either |
| CookieSessionSafety.ListedAreLive | authfn/python/authfn/http.py:768-787 | A list holds exactly the user's unrevoked, unexpired sessions in the table that the request saw |
| CookieSessionTable.RevocationIsFinal | authfn/python/authfn/http.py:463-485 | In no run does a revocation mark become null again, nor a deleted session return |
| CookieSessionSafety.SignOutRevokesAll | authfn/python/authfn/http.py:790-821 | After signing out everywhere, every session that the query saw, all of the user's at that time, is revoked or deleted for good |
| CookieSessionSafety.SignOutTouchesNoOther | authfn/python/authfn/http.py:790-821 | Signing out everywhere writes no row of another user |
| CookieSessionSafety.WritesOwnRowsOnly | authfn/python/authfn/http.py:790-841 | In every run, each write of a request that arrived with a session cookie is on a row of that session's user; writes in no user's name come only from calls of the server's own, on the row that the call names. Which rows may be revoked is `CookieSessionOutcomes.RevokesOnlyNamed` |
| CookieSessionOutcomes.RevokesOnlyNamed | authfn/python/authfn/http.py:790-841 | In every run, the step that revokes a session is of a request that asked for it: a revocation that named this session, a sign-out that came with it, a sign-out everywhere of its user, or the server's own call that named it; from the handler, with a valid csrf token |
| CookieSessionOutcomes.EndsAsAsked | authfn/python/authfn/http.py:768-841 | In every run, a request ends as what it asked for, about the session that it named: `Revoked(x)` only if it arrived to revoke x, `SignedOut(x)` only if it came with x |
| CookieSessionOutcomes.TokenNeeded | authfn/python/authfn/http.py:790-841 | In every run, a request that never sends a valid csrf token revokes nothing, signs nothing out and confirms nothing |
| CookieSessionOutcomes.ServedAlone | authfn/python/authfn/http.py:205-270 | From any state, a request whose steps then come alone is refused for the first reason that there is, with no row changed; else it is served: the named session is revoked, now, or the own one signed out, or the live ones listed, and no other row changes but for the touch of its own |
| CookieSessionOutcomes.ByIdAlone | authfn/python/authfn/http.py:463-485 | The server's own call that is alone revokes the named row, if it exists and is of the given user, and nothing else |
| CookieSessionOutcomes.SignsOutAlone | authfn/python/authfn/http.py:790-821 | A sign-out everywhere that is alone from its query on revokes all the user's unrevoked sessions, in whatever order it takes them, and changes no other row |
| CookieSessionSafety.RevokedSessionActsNever | authfn/python/authfn/http.py:205-270 | A request that comes with a revoked session returns nothing and writes nothing, whatever happens next |
| SessionStore.Store.StartRefresh | authfn/svelte/src/session-store.ts:41-47 | A refresh starts a new version, loading, without an error, with the session before |
| SessionStore.Store.FinishRefresh | authfn/svelte/src/session-store.ts:49-73 | An answer counts exactly if its version is the newest |
| SessionStore.Store.Clear | authfn/svelte/src/session-store.ts:85-88 | Clearing shows nothing and overtakes every refresh |
| SessionStore.ShowsNewest | authfn/svelte/src/session-store.ts:34-104 | For every order of starts, answers and clears, the store shows what the last start or clear and its own answer say |
| SessionStore.AnswerShown | authfn/svelte/src/session-store.ts:49-73 | The answer to the newest refresh is shown whole: the session without an error, or the error, or a network error, without a session |
| SessionStore.ChangeShown | authfn/svelte/src/session-store.ts:41-88 | After any events, a refresh keeps the session and region while it loads, and a clear shows none |
| SessionStore.NewestAnswerDecides | authfn/svelte/src/session-store.ts:41-74 | Two runs whose last refresh is answered alike show the same |
| SessionStore.LoadingWhilePending | authfn/svelte/src/session-store.ts:41-74 | The store is loading exactly while the newest refresh waits |
| SessionStore.StaleAnswerIgnored | authfn/svelte/src/session-store.ts:51-53 | The answer of an overtaken refresh changes nothing that is shown, then or after any further events |
| SessionStore.ViewsAreConsistent | authfn/svelte/src/session-store.ts:92-104 | Authenticated means a session is present, the region is the session's, an error means neither session nor loading |
| RegionalClient.Client.ResolveRegion | authfn/client/src/regional-client.ts:38-71 | Resolving computes the specified cache and answer |
| RegionalClient.Client.RunWithRegionRetry | authfn/client/src/regional-client.ts:162-178 | The retry computes the specified state and answer, with the specified calls |
| RegionalClient.Client.LookupCurrentRegion | authfn/client/src/regional-client.ts:78-114 | So does the lookup, with its own retry |
| RegionalClient.Client.PrepareEmailAuth | authfn/client/src/regional-client.ts:115-152 | So does preparing a sign-in or sign-up |
| RegionalClient.Client.SignUpWithPassword | authfn/client/src/regional-client.ts:186-197 | So does a sign-up, which calls the current region once, and only if it was prepared, and returns that answer |
| RegionalClient.Client.ClearRegion | authfn/client/src/regional-client.ts:252-254 | Clearing forgets the entry of the normalised identifier |
| RegionalClient.RetryFindsHome | authfn/client/src/regional-client.ts:162-178 | From any cache: at most two calls, home's answer is returned, home is current, and after a mismatch home is cached |
| RegionalClient.NextCallGoesHome | authfn/client/src/regional-client.ts:38-47 | Until that entry expires, the next call for the identifier goes straight home and changes nothing |
| RegionalClient.LookupFindsHome | authfn/client/src/regional-client.ts:78-114 | A lookup asks at most two regions, returns home's answer and caches home |
| RegionalClient.PreparedAtHome | authfn/client/src/regional-client.ts:115-152 | A prepared sign-in is at home; a sign-up stays where it was and goes on only without an account |
| RegionalOutcomes.NamedExactly | authfn/client/src/regional-client.ts:331-364 | A region is taken from an answer if and only if that is a mismatch with a non-empty region, and a non-empty authority or, without one, a non-empty redirect |
| RegionalOutcomes.ResolvedByServer | authfn/client/src/regional-client.ts:38-71 | Without a usable entry the current region is asked: its answer or the region that it names is cached, else the entry is forgotten; no other entry changes |
| RegionalOutcomes.RetryOutcomes | authfn/client/src/regional-client.ts:162-178 | For any servers: the first call goes to the resolved region or to the default one; only an answer that names a region is not final, and then that region is cached, current, and called once |
| RegionalOutcomes.LookupOutcomes | authfn/client/src/regional-client.ts:78-114 | For any servers: which answer a lookup returns, which regions it asks, and what it caches or forgets |
| RegionalOutcomes.PrepareOutcomes | authfn/client/src/regional-client.ts:115-152 | A failed lookup is returned; a sign-up is refused if and only if the address has an account or may not continue here; only a sign-in or reset goes to the region found |
| RegionalOutcomes.SignUpOutcomes | authfn/client/src/regional-client.ts:186-197 | A sign-up stays in its region and caches the region that its answer names, if any |
| RegionalClient.StepOnly | authfn/client/src/regional-client.ts:310-325 | A call touches the cache entry of its own normalised identifier only |
| RegionalClient.RunKeepsClean | authfn/client/src/regional-client.ts:310-364 | Over every sequence of calls, cache keys stay normalised and equal to their entries' identifiers |
| RegionalClient.EntriesAreAnswers | authfn/client/src/regional-client.ts:310-364 | In every run, each cached entry came with the storage, or is what a server that an earlier call for that identifier asked answered to it, and was held since |
| RegionalClient.ExpiredIsNotUsed | authfn/client/src/regional-client.ts:38-71 | After every run, the region that a call is given was answered by the current region's server in this call, or less than the lifetime of entries ago by a server that a call for the same identifier asked, and held in the cache since, or came with the storage and has not expired |
| Discovery.CollectSchemas | scripts/sfns4/update-google-discovery.py:21-31 | The collector succeeds exactly if every reachable reference resolves, and then holds exactly the reachable schemas, each as the document has it |
| Discovery.Collector.Refs | scripts/sfns4/update-google-discovery.py:22-30 | The depth-first search ends on cyclic graphs and leaves a closed set of reachable schemas |
| Discovery.ClosedCoversPath | scripts/sfns4/update-google-discovery.py:22-30 | A closed set that covers a value holds everything reachable from it |
| Discovery.MentionsExact | scripts/sfns4/update-google-discovery.py:22-30 | What a value refers to is the text that an object in it, at any depth, has under `$ref` |
| DiscoveryMethods.Catalogue.Collect | scripts/sfns4/update-google-discovery.py:16-19 | The recursive writer computes the specified dictionary |
| DiscoveryMethods.CatalogueExact | scripts/sfns4/update-google-discovery.py:16-19 | A dotted key stands for exactly the method that its parts lead to through the nested resources |
| Base64Url.Base64UrlBytes | authfn/social-oauth/src/oauth-support.ts:351-360 | The loop and the three replacements compute the encoding |
| Base64Url.DecodeBase64Url | authfn/social-oauth/src/oauth-support.ts:332-345 | The replacements, the padding and the loop compute the decoding, or throw |
| Base64Url.PaddingRestored | authfn/social-oauth/src/oauth-support.ts:332-336 | Rounding the length up to a multiple of four restores exactly the padding that was stripped |
| Base64Url.DecodeUndoesEncode | authfn/social-oauth/src/oauth-support.ts:332-360 | Every byte sequence comes back from its text |
| Base64Url.EncodingsAreCanonical | authfn/social-oauth/src/oauth-support.ts:351-360 | The encoder produces exactly the texts of url digits with a possible length and no stray bits |
| Base64Url.Vectors | authfn/social-oauth/src/oauth-support.ts:351-360 | The test vectors of section 10 of RFC 4648 up to three bytes, without padding, and the two digits in which base64url differs |
| OperatorStore.KeysExact | apifn/admin/src/operator-service.ts:82-84 | Joined keys of scopes without NUL are equal exactly if the identifiers are and the scopes differ at most in an absent and an empty environment |
| OperatorStore.UncleanKeysCollide | apifn/admin/src/operator-service.ts:82-84 | Neither condition can be dropped |
| OperatorStore.ScopesCollide | apifn/admin/src/operator-service.ts:82-84 | Any two scopes have a key in common if and only if the joined text of one begins with that of the other |
| OperatorStore.MemoryStore.PutEntry | apifn/admin/src/operator-service.ts:98-100 | Putting sets one key and keeps the place of an existing one |
| OperatorStore.MemoryStore.GetEntry | apifn/admin/src/operator-service.ts:93-96 | Getting returns the entry under the joined key, if any |
| OperatorStore.MemoryStore.ListEntries | apifn/admin/src/operator-service.ts:86-91 | Listing returns the entries with the prefix of the scope, in order |
| OperatorStore.MemoryStore.DeleteEntry | apifn/admin/src/operator-service.ts:102-104 | Deleting removes one key and says whether it was there |
| OperatorStore.AgreesWithNested | apifn/admin/src/operator-service.ts:78-125 | Over any run in clean scopes, get and list agree with a nested map from scope to identifier to record |
| OperatorStore.ScopesIsolated | apifn/admin/src/operator-service.ts:78-125 | Work in other scopes changes no result in this one, nor the order of a list |
| Paging.PageExact | apifn/admin/src/operator-service.ts:174-204 | A page holds the next items, as many as the limit lets, and its cursor points past them |
| Paging.PagesAreTheItems | apifn/admin/src/operator-service.ts:174-204 | Following the cursors ends, and the pages together are the sorted items, each once, for any limits |
| Paging.PageCount | apifn/admin/src/operator-service.ts:174-204 | With one limit there are as many pages as the length over the limit, rounded up, and at least one |
| Paging.PageLength | apifn/admin/src/operator-service.ts:174-204 | No page is longer than the limit, and only a last page is shorter |
| Paging.CursorsRefused | apifn/admin/src/operator-service.ts:181-192 | Any cursor is refused if and only if it is of another scope, or its offset is no safe index, or it is of another resource, in this order |
| Paging.PastTheEnd | apifn/admin/src/operator-service.ts:193-203 | A cursor past the items gives an empty last page |
| Paging.ForeignCursorsRefused | apifn/admin/src/operator-service.ts:181-192 | The cursor that one call gives out is taken by another call, on any items, if and only if that call has the same scope, up to an empty environment, and the same resource |
| OpenApiDiff.IterOperations | apifn/python/apifn/diff.py:6-15 | The loops build the operations by lower-case method and path, the later of two spellings counting |
| OpenApiDiff.SpellingsExact | apifn/python/apifn/diff.py:6-15 | Every member that spells a method keeps its parameters if and only if no path item has two members of one method with different parameters |
| OpenApiDiff.RequiredParams | apifn/python/apifn/diff.py:18-23 | The loop builds the set of the places and names for which there is a required parameter, an absent place counting as "query" and an absent name as ""; optional and non-object parameters do not count |
| OpenApiDiff.DiffOpenApi | apifn/python/apifn/diff.py:26-83 | The entries are exactly what is true of the two documents: an operation is gone, is new, or stayed and has a required parameter for whose place and name none was required before; each once and in order; the counts add up; something breaks exactly if an operation is gone or has such a parameter |
| OpenApiDiff.OperationsAre | apifn/python/apifn/diff.py:6-15 | An operation has the parameters of the last member that spells its method, in the last item of its path that has one |
| OpenApiDiff.EntriesSay | apifn/python/apifn/diff.py:33-57 | An entry is listed if and only if it is true of the parameter lists, without the function that collects required parameters |
| OpenApiDiff.CompatibleUnlessBreaks | apifn/python/apifn/diff.py:26-83 | Documents are compatible if and only if no operation is gone and none has a newly required parameter |
| OpenApiDiff.OptionalIgnored | apifn/python/apifn/diff.py:18-23 | Inserting an optional or non-object parameter anywhere changes no requirement |
| OpenApiDiff.LoosenedOrTightened | apifn/python/apifn/diff.py:26-57 | Making a parameter optional breaks nothing; making one required breaks exactly if none was required for its place and name |
| OpenApiDiff.BreakingExact | apifn/python/apifn/diff.py:26-57 | An entry is breaking exactly if an operation disappeared or asks for a new parameter |
| OpenApiDiff.CompatibleChains | apifn/python/apifn/diff.py:26-83 | Changes that break nothing compose |
| OpenApiDiff.CompatibleBothWays | apifn/python/apifn/diff.py:26-83 | Nothing breaks either way exactly if operations and required parameters are the same |
| OpenApiDiff.RemovalsAreAdditions | apifn/python/apifn/diff.py:33-43 | Removals on the way there are additions on the way back |

## Left out

- YAML and JSON text, the file system, HTTP, fetch and real databases: maps from paths or keys to values, with one atomic step per query or update. A call whose effect takes place while its answer is lost is not modelled.
- Text of YAML values other than strings, numbers and string maps in the fields that the reader looks at: they read as absent. Windows path syntax in the writer's check.
- The `http` section of a request, the default request body and the title of a slug in the generator: parameters of the model. `toLowerCase`, `localeCompare` and normalisation of identifiers are parameters too, assumed to be a function, a total order and idempotent where a lemma says so.
- The regular-expression engine: a compiled pattern is a list of literals and non-empty slash-free holes. URL normalisation, CORS, delays and body limits of the mock server.
- MockSchema.ValidatorAcceptsSample: objects and arrays among the choices of `enum` are not modelled, nor names that objects inherit, such as `toString`; lengths count the characters of the model.
- Random replies, examples and the choice of a status code in the mock, and its check of query parameters: easier members.
- Hashes, tokens and fresh identifiers: numbers that are never used twice. Hooks that rewrite the payload of a session, and the length limits on identifiers.
- HandoffSafety.ChainKeepsUser: the region along a chain is stated per handoff by HandoffSafety.IssueKeepsIdentity, because a session row stores no region.
- DeletionFenceSafety.OnlyTheOwnerReleases: finalising and restoring are modelled as the hooks call them, with the epoch of their fence; the exported functions also take calls without one, which release any fence.
- The time stamps in placements, and the gateway's cache of placements and its signed assertions.
- Session renewal, API keys and the second factor in the Python server, apart from the update that confirms it.
- RegionalClient.RunKeepsClean: calls run one after the other; calls of one client that overlap are not modelled.
- Limits of a page that are not whole numbers; the text of a cursor, which is taken to say what was put into it.
- Operations that are not objects in the documents of the diff.
- Packages of the repository of which only descriptions or configuration exist.
