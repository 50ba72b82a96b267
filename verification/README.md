# eval-hub: verified models of its protocols and transformations

eval-hub schedules model evaluations, tracks their status, and forwards what the evaluation
adapters send through a sidecar. Most of the code is HTTP and Kubernetes plumbing. This project
models the parts that carry state, concurrency or a transformation with a promise attached, and
proves what they promise for every input, every interleaving or every run.

| file | what it models |
|---|---|
| `WorkspaceSupport.dfy` | single-flight detection of MLflow workspace support, all interleavings of any number of callers |
| `ConfigWatcher.dfy` | the debounce loop that reloads configuration, all interleavings of events, timers and reloads |
| `NullableSchema.dfy` | the nullable-type rewrite of MCP tool schemas and its meaning under JSON Schema 2020-12 |
| `NullableSchemaHeap.dfy` | the same rewrite in place, on decoded map nodes with explicit addresses |
| `BenchmarkOverrides.dfy` | validation and resolution of collection overrides |
| `ResolvedSha.dfy` | the resolved-SHA protocol between init container, sidecar, adapter and server |
| `JobLifecycle.dfy` | job states in storage, the two gauges beside them, exports |
| `JsonPatch.dfy` | the JSON Patch allowlist over RFC 6901 pointers and RFC 6902 operations |
| `OciPush.dfy` | blob and manifest upload against a registry that may refuse, drop or apply any request |
| `SidecarRouting.dfy` | the two copies of the routing rules, and the rewriting of URLs in messages |
| `ProviderEnrichment.dfy` | memoised enrichment of collections from the provider catalog |
| `JobCache.dfy` | the sidecar's time-limited job cache |
| `Paging.dfy` | pages, next links, and reading a whole list |
| `Json.dfy`, `Text.dfy`, `Wrappers.dfy` | JSON values; string searching, splitting, trimming and percent escapes; optional values |

How the source's forms appear here: goroutines sharing memory become a state, a step function and
statements about all finite sequences of steps; objects and loops become classes and methods with
invariants, proved against a function of their inputs or their old state; the laws are lemmas
about those functions. External parties (network, file system, clock, codec, hash, adapter,
registry, map iteration order) are arbitrary: either a nondeterministic step or a parameter about
which only the listed hypotheses are made. The main laws are also stated without mentioning the
functions the code is modelled by, and each protocol has, beside what it never does, a run in which it
does what it is for.

Where the code does not do what its comments or its design suggest, the model follows the code,
and a lemma says exactly when the promise holds:

- The cancellation branch of the config watcher stops an armed timer without releasing its
  WaitGroup ticket. `Watch` can then never return (`CancelReturnsExactly`, `CancelCanHang`).
- The schema rewrite is described as equivalent. It adds `null` to the meaning of a nullable node,
  so it is equivalent exactly when the node's other keywords accept `null` (`NullableNodeExact`);
  an `enum` without `null` breaks it (`EnumBreaksMeaning`).
- Storage can move a running job back to pending, when its only started benchmark reports pending
  (`RegressionExact`). The queue gauge is then decremented twice: each time costs one
  (`CleanConservation`), and it can fall below zero (`QueueGaugeCanGoNegative`). A hard delete of an unfinished job leaves both gauges too high.
- Recording a SHA stores the merged benchmark list as the job's overrides. Resolving again brings
  back collection defaults that an override had deleted with an empty value
  (`ReresolutionExact`, `DeletedDefaultReturns`); the SHA itself survives.
- The sidecar is meant to let no SHA but its own reach the server. It forwards a post as it is when
  it does not recognise the path (it compares the escaped path, the server's router unescaped
  segments), cannot read the body to its end, or cannot encode the event again. A SHA other than
  init's can come to be held exactly through such a post (`ForwardExact`, `ForeignShaExactly`;
  `UnreadBodyIsHeld` and `EscapedPathIsHeld` are the smallest runs).
- The two enrichment passes differ on a URL when a URL-less benchmark shadows a later one with the
  same id (`PassesAgreeExactly`, `ShadowedUrl`).
- The sidecar tests the eval-hub prefix on the raw request URI and the rewriter on the escaped path.
  They agree except on targets that show the prefix only once they are unescaped and that have to be
  escaped anew (`RoutesAgreeExactly`, `MaskedTarget`).
- The job cache's type comment says entries are refreshed after their time to live; they are served
  until a sweep removes them (`ServedIsFresh`, `BoundIsReached`).
- A list request with limit 0 is admitted, returns everything from its offset, and still offers a
  next link, to itself. Offset plus limit can overflow (`NextOffsetExact`), so links come to an end
  only if the end of the last page still is a Go int (`LinksEndExactly`).

## Model

| member | source | states |
|---|---|---|
| WorkspaceSupport.SharedProbeSafety | internal/eval_hub/mlflow/workspace_support.go:70-173 | in every reachable state: at most one unfinished probe, at most one definitive store, a nil return implies resolved, all prepared clients carry the one detected flag |
| WorkspaceSupport.ResultsAreExplained | internal/eval_hub/mlflow/workspace_support.go:70-173 | over every run: support is enabled or disabled only by a server answer that says so, every prepared client carries such an answer, and every error comes from the arguments, the caller's own context or a probe that failed |
| WorkspaceSupport.AnswerReachesClient | internal/eval_hub/mlflow/workspace_support.go:78-173 | a run in which the server answers a probe, either way, ends with the caller's client carrying that answer |
| WorkspaceSupport.CancelledNeverProbes | internal/eval_hub/mlflow/workspace_support.go:104-111 | over every run, a caller whose context is done before it asks for the lock neither takes it nor starts or joins a probe |
| WorkspaceSupport.BadArgumentsRefused | internal/eval_hub/mlflow/workspace_support.go:94-103 | a missing client or context is refused before the shared state is read |
| WorkspaceSupport.SupportNeverFlips | internal/eval_hub/mlflow/workspace_support.go:91-173 | once detected, the capability is the same after every continuation |
| WorkspaceSupport.FailedProbeLeavesUnknown | internal/eval_hub/mlflow/workspace_support.go:122-173 | from its failure until it clears inflight, a failed probe finds the capability unknown, keeps it so, and then leaves nothing in flight |
| WorkspaceSupport.FailedProbeCleansUp | internal/eval_hub/mlflow/workspace_support.go:122-136 | from every reachable state with a failed probe, whoever holds the lock, a run without arrivals leaves the capability unknown, nothing in flight, the lock free, and the failure told to those who wait |
| WorkspaceSupport.FailedProbeRestarts | internal/eval_hub/mlflow/workspace_support.go:91-136 | from every reachable state with a failed probe, a live caller can go on to start a fresh probe, which is then the one in flight |
| WorkspaceSupport.FailedProbeEnds | internal/eval_hub/mlflow/workspace_support.go:122-136 | what the failed probe goroutine leaves behind, and that nothing else changes |
| WorkspaceSupport.Restartable | internal/eval_hub/mlflow/workspace_support.go:94-136 | in any state with nothing in flight, the lock free and the capability unknown, a live caller alone reaches a fresh probe |
| WorkspaceSupport.NoDeadlock | internal/eval_hub/mlflow/workspace_support.go:94-148 | while any caller or probe has work left, some goroutine can step without new arrivals or cancellations |
| WorkspaceSupport.StepKeepsInv | internal/eval_hub/mlflow/workspace_support.go:94-173 | lock ownership, single flight, single store and every program point's knowledge are inductive |
| WorkspaceSupport.RunKeepsInv | internal/eval_hub/mlflow/workspace_support.go:94-173 | the invariant holds after every interleaving |
| WorkspaceSupport.ReachableInv | internal/eval_hub/mlflow/workspace_support.go:48-173 | every state reachable from a new WorkspaceSupport satisfies the invariant |
| ConfigWatcher.TicketAccounting | internal/eval_hub/config/watcher.go:98-142 | the WaitGroup is never negative; at the select it counts armed timers plus unfinished callbacks; when Watch has returned nothing is armed or running |
| ConfigWatcher.NoLostChange | internal/eval_hub/config/watcher.go:110-183 | every handled relevant event is covered by a later read, an armed timer or a callback yet to read; reload bodies never overlap |
| ConfigWatcher.ChangeIsStored | internal/eval_hub/config/watcher.go:98-183 | from every reachable state of a watcher that is not stopping, a relevant change can be brought to storage: some continuation stores both providers and collections as they are on disk |
| ConfigWatcher.StoredWhenReloadEnds | internal/eval_hub/config/watcher.go:166-183 | storage changes only when a reload ends well, to what that reload read; a failed reload leaves it alone |
| ConfigWatcher.ReloadReadsDisk | internal/eval_hub/config/watcher.go:161-163 | a reload reads the disk as it is at each of its two reads |
| ConfigWatcher.EventIsScheduled | internal/eval_hub/config/watcher.go:120-133 | the loop's steps after a relevant event leave a timer armed |
| ConfigWatcher.QueueDrains | internal/eval_hub/config/watcher.go:110-133 | queued events can be worked off, and a relevant one leaves a reload due |
| ConfigWatcher.ReloadsRunOut | internal/eval_hub/config/watcher.go:130-183 | callbacks can be run to their end, and a reload that was due has then ended well |
| ConfigWatcher.QuietMeansCurrent | internal/eval_hub/config/watcher.go:98-183 | with nothing queued or outstanding and the last reload successful, storage holds what is on disk |
| ConfigWatcher.CancelReturnsExactly | internal/eval_hub/config/watcher.go:102-108 | after cancellation some continuation lets Watch return if and only if no timer was armed at Stop |
| ConfigWatcher.CancelCanHang | internal/eval_hub/config/watcher.go:102-108 | one file change followed by a cancellation reaches a state that waits for a leaked ticket |
| ConfigWatcher.LeakedTicketBlocks | internal/eval_hub/config/watcher.go:102-108 | from a leaked ticket no continuation leaves the wait |
| ConfigWatcher.WaitReleases | internal/eval_hub/config/watcher.go:106-133 | without a leak the outstanding callbacks can all finish and the wait is released |
| ConfigWatcher.StepKeepsTickets | internal/eval_hub/config/watcher.go:98-142 | ticket accounting is kept by every step |
| ConfigWatcher.StepKeepsReload | internal/eval_hub/config/watcher.go:155-183 | mutual exclusion of reloads and the order of what they read and store are kept by every step |
| ConfigWatcher.StepKeepsCover | internal/eval_hub/config/watcher.go:110-133 | coverage of events is kept by every step |
| ConfigWatcher.StepKeepsInv | internal/eval_hub/config/watcher.go:98-183 | all three are kept by every step |
| ConfigWatcher.RunKeepsInv | internal/eval_hub/config/watcher.go:98-183 | all three hold after every interleaving |
| NullableSchema.FixSameMeaning | internal/evalhub_mcp/server/tools_schema.go:39-126 | the rewrite accepts exactly the same values, for every schema whose nullable nodes have siblings that accept null |
| NullableSchema.NullableNodeMeaning | internal/evalhub_mcp/server/tools_schema.go:77-126 | whatever its siblings, a rewritten nullable node accepts its own values and null |
| NullableSchema.NullableNodeExact | internal/evalhub_mcp/server/tools_schema.go:77-126 | rewriting a nullable node keeps its meaning if and only if its other keywords accept null |
| NullableSchema.NullRefusals | internal/evalhub_mcp/server/tools_schema.go:107-126 | only combinators and keywords the walk never enters can refuse null |
| NullableSchema.EnumBreaksMeaning | internal/evalhub_mcp/server/tools_schema.go:107-126 | a nullable string with an enum that leaves null out gains null |
| NullableSchema.FixRemovesPairs | internal/evalhub_mcp/server/tools_schema.go:39-126 | no two-element null type array is left at any position the walk visits |
| NullableSchema.FixIsPairFree | internal/evalhub_mcp/server/tools_schema.go:41-126 | whichever way one takes through properties, $defs, items, additionalProperties, anyOf, allOf, oneOf and prefixItems, no schema reached in the result has a pair of "null" and another type |
| NullableSchema.FixNode | internal/evalhub_mcp/server/tools_schema.go:41-126 | the rewrite of one node in full: a node with such a pair becomes anyOf of the null schema and the walked node with the other type, any other node is walked |
| NullableSchema.FixFieldsWalked | internal/evalhub_mcp/server/tools_schema.go:46-74 | walking a node rewrites exactly the schemas under the eight keywords and keeps every other keyword |
| NullableSchema.NullableIsPair | internal/evalhub_mcp/server/tools_schema.go:82-105 | the nullable test finds exactly the pairs of "null" and another type, in either order, and the other type |
| NullableSchema.FixIdempotent | internal/evalhub_mcp/server/tools_schema.go:39-126 | the rewrite is idempotent and its fixed points are exactly the schemas without such an array |
| NullableSchema.FixStable | internal/evalhub_mcp/server/tools_schema.go:41-75 | a schema without such an array is unchanged |
| NullableSchema.FixFieldsContext | internal/evalhub_mcp/server/tools_schema.go:46-74 | the walk keeps what one keyword reads from another: prefix length and evaluated properties |
| NullableSchema.FixKeywordPreserves | internal/evalhub_mcp/server/tools_schema.go:46-74 | each entered keyword accepts the same values after the walk |
| NullableSchema.FixFieldsPreserves | internal/evalhub_mcp/server/tools_schema.go:46-74 | all keywords of a node together accept the same values after the walk |
| NullableSchemaHeap.Heap.McpToolSchema | internal/evalhub_mcp/server/tools_schema.go:18-37 | decoding and rewriting gives a tree of new, separate nodes that spells out the rewritten schema, with no null type pair reachable through any of the eight keywords; every earlier node is untouched |
| NullableSchemaHeap.Heap.FixNullableTypeArrays | internal/evalhub_mcp/server/tools_schema.go:41-75 | in place: the node keeps its address, stands as a tree of its old nodes and new ones, holds the rewritten document, and no other cell changes |
| NullableSchemaHeap.Heap.ConvertTypeArray | internal/evalhub_mcp/server/tools_schema.go:82-126 | returns true exactly on nullable nodes, which then hold the rewritten document; otherwise nothing changes |
| NullableSchemaHeap.Heap.NullablePair | internal/evalhub_mcp/server/tools_schema.go:83-105 | the loop over the type array decides nullability and finds the other type |
| NullableSchemaHeap.Heap.Restructure | internal/evalhub_mcp/server/tools_schema.go:107-122 | the node's fields move to a new branch node and the node keeps only anyOf |
| NullableSchemaHeap.Heap.FinishConversion | internal/evalhub_mcp/server/tools_schema.go:119-125 | the recursion into the branch, through the new sharing of nodes, completes the rewrite of the node |
| NullableSchemaHeap.Heap.FixKeywords | internal/evalhub_mcp/server/tools_schema.go:46-74 | the keyword-by-keyword walk of a node that is not nullable holds its rewritten document |
| NullableSchemaHeap.Heap.FixValue | internal/evalhub_mcp/server/tools_schema.go:46-74 | one keyword's value is rewritten as that keyword requires |
| NullableSchemaHeap.Heap.FixMembers | internal/evalhub_mcp/server/tools_schema.go:46-52 | all members of a map of schemas are rewritten, in any iteration order |
| NullableSchemaHeap.Heap.FixItems | internal/evalhub_mcp/server/tools_schema.go:56-64 | all schemas of an array are rewritten |
| NullableSchemaHeap.Heap.Decode | internal/evalhub_mcp/server/tools_schema.go:31-34 | decoding builds separate new nodes that hold the document |
| NullableSchemaHeap.TreeUnique | internal/evalhub_mcp/server/tools_schema.go:31-36 | the heap determines the tree that stands at a value |
| BenchmarkOverrides.GetJobBenchmarks | internal/eval_hub/handlers/helpers.go:232-293 | the four outcomes, the resolved list being the specification's |
| BenchmarkOverrides.ResolveCollection | internal/eval_hub/handlers/helpers.go:246-284 | groups, cursors and appends compute the resolved list, never indexing a group out of range |
| BenchmarkOverrides.BuildGroups | internal/eval_hub/handlers/helpers.go:246-267 | each pair's group holds its occurrence count and its own overrides in order |
| BenchmarkOverrides.CountGroups | internal/eval_hub/handlers/helpers.go:252-259 | one group per pair that occurs, with its count |
| BenchmarkOverrides.CollectOverrides | internal/eval_hub/handlers/helpers.go:260-267 | overrides are split into each pair's own and the provider-level ones |
| BenchmarkOverrides.MergeNext | internal/eval_hub/handlers/helpers.go:268-283 | one benchmark is merged and its group's cursor advances with its occurrences |
| BenchmarkOverrides.MergeBenchmarkParameters | internal/eval_hub/handlers/helpers.go:295-351 | the loops compute the merge of one benchmark with its overrides |
| BenchmarkOverrides.MergeParameters | internal/eval_hub/handlers/helpers.go:295-317 | parameters are the collection's, then each own override's, applied in order |
| BenchmarkOverrides.ApplyParameters | internal/eval_hub/handlers/helpers.go:296-305 | one source applied key by key in any map order equals the order-free merge |
| BenchmarkOverrides.PickExact | internal/eval_hub/handlers/helpers.go:318-332 | test data and hardware come from the first exact override |
| BenchmarkOverrides.PickProviderHardware | internal/eval_hub/handlers/helpers.go:333-340 | fallback hardware comes from the first provider-level override that has one |
| BenchmarkOverrides.AppliedIsLastMention | internal/eval_hub/handlers/helpers.go:295-363 | merged parameters are last-mention-wins per key and no empty value survives |
| BenchmarkOverrides.ResolvedParameters | internal/eval_hub/handlers/helpers.go:260-363 | of a resolved benchmark's parameters none is nil or the empty string; a key whose last mention is one of these is absent, and any other last mention is the value |
| BenchmarkOverrides.ResolvedFields | internal/eval_hub/handlers/helpers.go:318-351 | identity and criteria are the collection's; test data and hardware are the first override's if it has them, otherwise the collection's and the first provider-level hardware |
| BenchmarkOverrides.OverridesOfBenchmark | internal/eval_hub/handlers/helpers.go:252-283 | a benchmark gets all overrides that name it, or, if its pair is repeated exactly as often as it is overridden, the one at its own place |
| BenchmarkOverrides.OwnOnly | internal/eval_hub/handlers/helpers.go:260-267 | a pair's own overrides all name its provider and id |
| BenchmarkOverrides.OwnInOrder | internal/eval_hub/handlers/helpers.go:260-267 | every override that names a pair is one of its own, after those before it |
| BenchmarkOverrides.ProviderViewOnly | internal/eval_hub/handlers/helpers.go:260-267 | provider-level overrides of a provider have no id and name it |
| BenchmarkOverrides.ProviderViewInOrder | internal/eval_hub/handlers/helpers.go:260-267 | every one that does is among them, after those before it |
| BenchmarkOverrides.MergeDependsOnView | internal/eval_hub/handlers/helpers.go:295-351 | a merge depends only on the pair's own overrides and its provider's provider-level ones |
| BenchmarkOverrides.ResolveAt | internal/eval_hub/handlers/helpers.go:246-284 | length and order are the collection's, and each element is a function of its own overrides and its provider's |
| BenchmarkOverrides.ReorderingInvisible | internal/eval_hub/handlers/helpers.go:246-284 | any reordering that keeps every pair's and every provider's subsequence resolves to the same list, matched counts or not |
| BenchmarkOverrides.SingleOverrideEffect | internal/eval_hub/handlers/helpers.go:260-351 | what one override does to identity, criteria, test data, hardware and each parameter |
| BenchmarkOverrides.ValidateCollectionOverrides | internal/eval_hub/validation/validator.go:111-153 | accepts exactly the overrides that are known and whose counts fit; a refusal names the first unknown one or a wrong count |
| BenchmarkOverrides.AcceptsExactly | internal/eval_hub/validation/validator.go:111-153 | the accepted overrides are those that name a provider of the collection and, if any, a benchmark of it there, with a repeated pair overridden not at all, once, or once for each repetition |
| BenchmarkOverrides.CountOverrides | internal/eval_hub/validation/validator.go:111-153 | the first pass counts each pair's overrides or stops at the first unknown one |
| BenchmarkOverrides.CheckOverride | internal/eval_hub/validation/validator.go:111-153 | an override is accepted exactly when it is known, and otherwise named by what is unknown about it |
| BenchmarkOverrides.CheckCounts | internal/eval_hub/validation/validator.go:111-153 | the second pass accepts exactly when every pair's count fits |
| BenchmarkOverrides.CountPairs | internal/eval_hub/validation/validator.go:111-153 | the providers and pair counts of the collection |
| BenchmarkOverrides.AcceptedOverridesAreExact | internal/eval_hub/handlers/helpers.go:246-284 | for accepted overrides of a repeated pair, the k-th occurrence gets the k-th override when counts match, every occurrence gets a single one, none gets none |
| BenchmarkOverrides.ReresolveAt | internal/eval_hub/storage/sql/evaluations_status.go:376-397 | resolving with a stored resolved list pairs each element with its own stored one |
| BenchmarkOverrides.ResolveAligned | internal/eval_hub/storage/sql/evaluations_status.go:383-397 | the resolved list lines up with the collection |
| BenchmarkOverrides.ReresolutionExact | internal/eval_hub/storage/sql/evaluations_status.go:376-397 | resolving twice changes parameters at most, and nothing exactly when no collection default was deleted by an override |
| BenchmarkOverrides.DeletedDefaultReturns | internal/eval_hub/storage/sql/evaluations_status.go:395-397 | a default deleted by an empty override comes back |
| ResolvedSha.ForeignShaExactly | internal/eval_hub/handlers/evaluations.go:737-760 | a SHA other than the init-written one can come to be held if and only if some post that the sidecar does not guard carries it, as written, for a benchmark of the job with test data |
| ResolvedSha.HeldShaIsExplained | internal/eval_hub/handlers/evaluations.go:737-760 | over every run with an arbitrary adapter: a held SHA is the init-written one or was carried by an unguarded post of the run, and SHAs are stored only for posts whose status update was accepted |
| ResolvedSha.OnlyInitShaIsPersisted | internal/eval_hub/handlers/evaluations.go:737-760 | over every run whose posts are all guarded, every held SHA is the init-written one |
| ResolvedSha.InitShaReachesBenchmark | internal/eval_hub/handlers/evaluations.go:737-760 | once init has written its SHA, a guarded post that names a benchmark with unresolved test data has a run that brings the SHA to that benchmark |
| ResolvedSha.HeldShaIsHex | internal/eval_hub/storage/sql/evaluations_status.go:349-355 | every SHA that a run sets has 7 to 40 hexadecimal digits |
| ResolvedSha.RunKeepsShas | internal/eval_hub/storage/sql/evaluations_status.go:344-406 | over every run a SHA once set never changes, and no benchmark is added, removed or renamed |
| ResolvedSha.PlantingRun | internal/eval_runtime_sidecar/handlers/handlers.go:120-205 | an unguarded post that can put a SHA on the job does so in a run in which it is the only post |
| ResolvedSha.UnreadBodyIsHeld | internal/eval_runtime_sidecar/handlers/handlers.go:157-165 | one recognised post whose body was not read to its end puts its SHA on the job |
| ResolvedSha.EscapedPathIsHeld | internal/eval_runtime_sidecar/handlers/handlers.go:145-150 | one post with an escaped letter in its path puts its SHA on the job |
| ResolvedSha.RecognisedExactly | internal/eval_runtime_sidecar/handlers/handlers.go:145-150 | the sidecar recognises exactly the served event paths whose fixed segments are written without escapes |
| ResolvedSha.EscapedPathIsServed | internal/eval_hub/server/server.go:346-362 | the events endpoint with one letter escaped is served and not recognised |
| ResolvedSha.PassThroughRefused | internal/eval_runtime_sidecar/handlers/handlers.go:157-205 | bodies in which the sidecar finds no event are forwarded as they are, and the server refuses them |
| ResolvedSha.GuardedShaIsOwn | internal/eval_runtime_sidecar/handlers/handlers.go:157-205 | a guarded post that the server accepts carries the sidecar's SHA and no other |
| ResolvedSha.GuardedKeepsEvent | internal/eval_runtime_sidecar/handlers/handlers.go:169-204 | a guarded post that the server accepts is the event the adapter wrote, in provider, id and index, with the sidecar's SHA for metadata or none |
| ResolvedSha.GuardedIsReceived | internal/eval_runtime_sidecar/handlers/handlers.go:169-204 | the server takes a guarded event with the sidecar's SHA whenever that event is valid |
| ResolvedSha.UnguardedIsForwarded | internal/eval_runtime_sidecar/handlers/handlers.go:120-205 | a post that is not guarded is forwarded as it is |
| ResolvedSha.ForwardExact | internal/eval_runtime_sidecar/handlers/handlers.go:120-205 | a post can only carry the sidecar's SHA if and only if it is guarded or the server would not take another SHA from it as it is |
| ResolvedSha.StoredStampIsEffective | internal/eval_hub/storage/sql/evaluations_status.go:355-397 | a stamped list written back as overrides shows the same test data and benchmarks when resolved again |
| ResolvedSha.PersistEffect | internal/eval_hub/storage/sql/evaluations_status.go:349-406 | recording a SHA fills exactly the stamped entries, which were empty, and changes no other SHA, name or presence of test data |
| ResolvedSha.StepKeepsShas | internal/eval_runtime_sidecar/handlers/handlers.go:157-234 | no step changes a SHA that is set, and what a step sets is explained by init or by an unguarded post |
| ResolvedSha.StepKeepsInv | internal/eval_runtime_sidecar/handlers/handlers.go:157-234 | what every post in flight may carry is inductive, for all bodies, paths and read failures |
| JobLifecycle.GaugeConservation | internal/eval_hub/handlers/evaluation_metrics.go:11-95 | over every run: active gauge is stored non-terminal jobs plus accounted leaks, queue gauge stored pending jobs plus accounted leaks |
| JobLifecycle.CleanConservation | internal/eval_hub/handlers/evaluations.go:806-846 | when the reads of updates succeed: the active gauge is off by the unfinished jobs hard-deleted, the queue gauge by the pending ones hard-deleted less the moves back to pending, so its law holds exactly when there was none |
| JobLifecycle.StepAccounting | internal/eval_hub/handlers/evaluations.go:437-480 | each step moves each gauge's excess by exactly its stated leak |
| JobLifecycle.UpdateAccounting | internal/eval_hub/handlers/evaluation_metrics.go:11-67 | an accepted status event moves each gauge's distance from the stored jobs by its stated leak, with every combination of failed reads |
| JobLifecycle.ExportedAtMostOnce | internal/eval_hub/handlers/evaluation_terminal.go:12-51 | over every run, event-driven export happens at most once per job, only for terminal ones |
| JobLifecycle.ExportedExactly | internal/eval_hub/handlers/evaluation_terminal.go:12-51 | over every run, the jobs exported are exactly those that an accepted event, after which the job could be read, has ended, each of them once |
| JobLifecycle.ExportedFromStart | internal/eval_hub/handlers/evaluation_terminal.go:12-51 | the same from the start of the server |
| JobLifecycle.ExportStep | internal/eval_hub/handlers/evaluation_terminal.go:19-29 | one step exports a job exactly when it ends it that way |
| JobLifecycle.OtherJobsKept | internal/eval_hub/handlers/evaluations.go:684-846 | no handler touches another job |
| JobLifecycle.CreateEffect | internal/eval_hub/handlers/evaluations.go:437-480 | a stored job is pending and unreported, or failed if its start failed and that was recorded |
| JobLifecycle.CancelEffect | internal/eval_hub/storage/sql/evaluations_status.go:43-105 | cancelling drops what is not settled and keeps what is; a hard delete removes the job; a finished job is left alone |
| JobLifecycle.DeleteEffect | internal/eval_hub/handlers/post_processing.go:50-95 | deletion removes exactly a stored post-processing job |
| JobLifecycle.StepKeepsExports | internal/eval_hub/handlers/evaluation_terminal.go:19-29 | the same for one step |
| JobLifecycle.TerminalIsFinal | internal/eval_hub/storage/sql/evaluations_status.go:15-31 | a terminal job keeps its state and reports until it is deleted |
| JobLifecycle.ReportShape | internal/eval_hub/storage/sql/evaluations_status.go:219-242 | a report changes the entry of its own benchmark, unless it would unsettle it, or opens a new one; nothing else changes |
| JobLifecycle.UpdateRecords | internal/eval_hub/storage/sql/evaluations_status.go:219-242 | an accepted event gives its benchmark the reported status, unless that would unsettle it, and leaves every other benchmark's status |
| JobLifecycle.AcceptedExactly | internal/eval_hub/storage/sql/evaluations_status.go:126-150 | exactly the events for an unfinished job on a benchmark at its stated index are accepted |
| JobLifecycle.OverallExact | internal/eval_hub/storage/sql/evaluations_status.go:153-217 | what each of the six overall states says about every benchmark of the job |
| JobLifecycle.UpdateExact | internal/eval_hub/storage/sql/evaluations_status.go:245-342 | an accepted event completes a job exactly when every benchmark is done, and ends it exactly when every benchmark is settled |
| JobLifecycle.CountReachesTotal | internal/eval_hub/storage/sql/evaluations_status.go:153-217 | comparing a count, or a sum of counts, with the total means every benchmark, none counted twice |
| JobLifecycle.PendingMeansAllQueued | internal/eval_hub/storage/sql/evaluations_status.go:153-217 | overall pending means that every report is pending |
| JobLifecycle.RegressionExact | internal/eval_hub/storage/sql/evaluations_status.go:192-242 | exactly when an event moves a running job back to pending |
| JobLifecycle.QueueGaugeCanGoNegative | internal/eval_hub/handlers/evaluation_metrics.go:35-67 | running, pending, running leaves the queue gauge at minus one with nothing pending |
| JobLifecycle.StepKeepsStore | internal/eval_hub/storage/sql/evaluations_status.go:43-342 | stored reports stay one per benchmark and consistent with the job's benchmarks |
| JobLifecycle.RunKeepsStore | internal/eval_hub/storage/sql/evaluations_status.go:43-342 | the same after every run |
| JobLifecycle.Service.CreateJob | internal/eval_hub/handlers/evaluations.go:437-480 | storage, start and gauges in the handler's order, start failures included |
| JobLifecycle.Service.UpdateEvaluation | internal/eval_hub/handlers/evaluations.go:684-776 | pre-read, update, gauges and export in the handler's order, every read failing or not, as the step whose gauges, reports and exports the lemmas above determine |
| JobLifecycle.Service.CancelEvaluation | internal/eval_hub/handlers/evaluations.go:779-846 | hard delete leaves the gauges; cancellation of an unfinished job moves them |
| JobLifecycle.Service.DeletePostProcessingJob | internal/eval_hub/handlers/post_processing.go:50-95 | deletion with a terminal transition when the job was unfinished |
| JobLifecycle.LeaveAccounting | internal/eval_hub/handlers/evaluation_metrics.go:75-95 | recording the terminal transition of an unfinished job leaves both gauges exactly as far from the stored jobs as they were |
| JsonPatch.CoversIsPosition | internal/eval_hub/handlers/helpers.go:196-210 | the textual prefix test holds exactly when the pointer's first token is the entry's member, deeper only for prefix entries |
| JsonPatch.PatchConfined | internal/eval_hub/handlers/providers.go:347-360 | an allowed patch leaves unlisted members unchanged and removes or adds only members with that grant |
| JsonPatch.OpConfined | internal/eval_hub/handlers/providers.go:347-360 | the same for one operation |
| JsonPatch.ActsOnContainer | internal/eval_hub/handlers/providers.go:347-360 | an operation succeeds exactly when the container of its last token can be looked up and takes it, and what is then found there is the changed container |
| JsonPatch.ObjectEffect | internal/eval_hub/handlers/providers.go:347-360 | on an object, add and replace set the member, remove takes it away, replace and remove need it, and no other member changes |
| JsonPatch.ArrayEffect | internal/eval_hub/handlers/providers.go:347-360 | on an array, add makes room at an index or at the end, remove closes the gap, replace changes one element, all others keep their order |
| JsonPatch.ReplacementIsRead | internal/eval_hub/handlers/providers.go:347-360 | a replacement can be looked up where it was made, and replaced something |
| JsonPatch.ElsewhereKept | internal/eval_hub/handlers/providers.go:347-360 | what lies off the way to the container is looked up as before |
| JsonPatch.WholeDocument | internal/eval_hub/handlers/providers.go:347-360 | the empty pointer is the whole document, which can be replaced and not removed |
| JsonPatch.PointerRoundTrip | internal/eval_hub/handlers/providers.go:347-360 | every non-empty list of tokens has a pointer, and reading it gives the tokens back |
| JsonPatch.TokenRoundTrip | internal/eval_hub/handlers/providers.go:347-360 | the escapes ~0 and ~1 are read back |
| JsonPatch.IndexExactly | internal/eval_hub/handlers/providers.go:347-360 | the array indices are exactly the decimal numerals without leading zeros |
| JsonPatch.ReplaceInsideKeepsLength | internal/eval_hub/handlers/providers.go:347-360 | a replace inside an array member keeps the array's length and all member names |
| JsonPatch.IsAllowedPatch | internal/eval_hub/handlers/helpers.go:196-210 | the two loops decide membership in the allowlist |
| JsonPatch.VerifyPatches | internal/eval_hub/handlers/helpers.go:212-228 | accepts exactly the lists whose every operation is acceptable, and names the first that is not |
| JsonPatch.RulesConfine | internal/eval_hub/handlers/collections.go:25-71 | confinement for allowlists given by member rules |
| JsonPatch.EntriesGrant | internal/eval_hub/handlers/collections.go:25-71 | an entry table grants exactly what its rules say |
| JsonPatch.CollectionPatchSafe | internal/eval_hub/handlers/collections.go:25-71 | collection patches never touch curation_order and never remove or create name, category, benchmarks, nor remove pinned_order |
| JsonPatch.CollectionTable | internal/eval_hub/handlers/collections.go:25-71 | what the collection allowlist says of those members |
| JsonPatch.CollectionTextGrants | internal/eval_hub/handlers/collections.go:25-71 | which of name, description, tags and custom can be added, removed, replaced, and patched inside |
| JsonPatch.CollectionContentGrants | internal/eval_hub/handlers/collections.go:25-71 | the same for category, benchmarks, pass_criteria, domains and tasks |
| JsonPatch.CollectionLabelsGrants | internal/eval_hub/handlers/collections.go:25-71 | the same for modalities, industries, evaluation_targets and pinned_order |
| JsonPatch.ProviderPatchSafe | internal/eval_hub/handlers/providers.go:25-51 | provider patches never remove or create name, runtime or benchmarks |
| JsonPatch.ProviderTable | internal/eval_hub/handlers/providers.go:25-51 | what the provider allowlist says of those members |
| JsonPatch.ProviderTextGrants | internal/eval_hub/handlers/providers.go:25-51 | which of name, title, description and tags can be added, removed, replaced, and patched inside |
| JsonPatch.ProviderContentGrants | internal/eval_hub/handlers/providers.go:25-51 | the same for custom, runtime, benchmarks and agent |
| OciPush.Client.PushEvaluationCard | pkg/ociclient/client.go:66-120 | whatever fails: sound tags stay sound, other tags are untouched, the pushed tag is as it was or names a manifest with both blobs stored; the manifest is sent last, after both blobs are stored; a returned reference's digest is the hash of the manifest at the tag; and with proper arguments a healthy registry makes the push succeed |
| OciPush.Client.EnsureBlobs | pkg/ociclient/client.go:66-120 | both blobs are stored before anything else is sent, or one of the two failed |
| OciPush.Client.UploadBlobChunked | pkg/ociclient/client.go:264-347 | for every split of the reader the effect is that of one upload of the whole: contiguous ranges from zero, patched bytes equal to the content, size and digest of the whole |
| OciPush.Client.StreamChunks | pkg/ociclient/client.go:264-304 | the loop's session, hasher and offset all hold the content read so far; a faulty reader ends in failure |
| OciPush.Client.SendChunk | pkg/ociclient/client.go:279-297 | what was read goes to the end of the session as the next contiguous range, or nothing is sent |
| OciPush.Client.UploadBlobMonolithic | pkg/ociclient/client.go:237-261 | stores the content under its digest or leaves the blobs as they were |
| OciPush.Client.FinishUpload | pkg/ociclient/client.go:327-347 | closing a session stores its bytes under the digest, or nothing |
| OciPush.Client.PatchBlobChunk | pkg/ociclient/client.go:309-324 | a success appended exactly this chunk to the session, once |
| OciPush.Client.StartBlobUpload | pkg/ociclient/client.go:212-234 | a success opened one new empty session |
| OciPush.Client.BlobExists | pkg/ociclient/client.go:181-199 | changes nothing, and true means the blob is stored |
| OciPush.Client.EnsureBlob | pkg/ociclient/client.go:148-172 | a success means the blob is stored and the descriptor has its digest and size |
| OciPush.Client.PutTag | pkg/ociclient/client.go:351-374 | a success put exactly these bytes at the tag and returns their hash |
| OciPush.Client.Do | pkg/ociclient/client.go:402-449 | with the retry after 401, one logical request takes effect at most once, with an identical body; a healthy registry grants a proper one |
| OciPush.ReaderOfContent | pkg/ociclient/client.go:264-304 | reading in chunks of any size gives back the content |
| OciPush.BlobHolds | pkg/ociclient/client.go:148-172 | where blobs are stored under their own digests and hashes do not collide, a stored digest has the stated size |
| OciPush.ManifestKeepsTag | pkg/ociclient/client.go:95-120 | tagging a manifest whose blobs are stored keeps every sound tag sound and makes its own so |
| OciPush.BlobKeepsTag | pkg/ociclient/client.go:237-347 | storing a blob under its digest keeps every sound tag sound |
| SidecarRouting.RewriteFollowsRouter | pkg/api/sidecar_url_rewrite.go:89-149 | a URL of the sidecar that the sidecar routes to eval-hub, MLflow, the OCI registry or the model is given that upstream's address; a masked one is given eval-hub's |
| SidecarRouting.RetargetedMeans | pkg/api/sidecar_url_rewrite.go:104-124 | the new address has the target's scheme and host and no credentials, and path, query and fragment are kept; without a target only these are left |
| SidecarRouting.ClassExactly | pkg/api/sidecar_url_rewrite.go:126-188 | which paths are eval-hub's, MLflow's and the OCI registry's, by text and segments |
| SidecarRouting.MlflowBySegments | pkg/api/sidecar_url_rewrite.go:152-165 | a path is MLflow's exactly when its segments begin with one of the three roots |
| SidecarRouting.RootBySegments | pkg/api/sidecar_url_rewrite.go:163-165 | the exact-or-subpath test is a comparison of leading segments |
| SidecarRouting.BaseUrlShape | pkg/api/sidecar_url_rewrite.go:55 | the base URL is the configured one without surrounding white space and trailing slashes |
| SidecarRouting.SpanFollowsRouter | pkg/api/sidecar_url_rewrite.go:54-110 | the same for every such URL in a rewritten message |
| SidecarRouting.RoutesAgreeExactly | internal/eval_runtime_sidecar/handlers/handlers.go:265-328 | the class the rewriter finds in the path of the whole URL is the class the router gives the request target if and only if the target does not mask the eval-hub prefix |
| SidecarRouting.MaskedExactly | internal/eval_runtime_sidecar/handlers/handlers.go:265-276 | escaping the path anew shows a prefix that the raw target has not, exactly for masked targets, and never hides one |
| SidecarRouting.MaskedTarget | internal/eval_runtime_sidecar/handlers/handlers.go:265-290 | one letter of the prefix escaped and one character that should have been: such a target is masked |
| SidecarRouting.WellWrittenAgree | internal/eval_runtime_sidecar/handlers/handlers.go:265-328 | router and rewriter agree on every target that holds no character to be escaped |
| SidecarRouting.EscapePrefix | internal/eval_runtime_sidecar/handlers/handlers.go:265-276 | escaping neither makes nor hides a plain prefix |
| SidecarRouting.UnescapePrefix | internal/eval_runtime_sidecar/handlers/handlers.go:265-276 | unescaping keeps a plain prefix |
| SidecarRouting.EscapeRoundTrip | internal/eval_runtime_sidecar/handlers/handlers.go:265-276 | escaping a path can be undone |
| SidecarRouting.CutKeepsPrefix | internal/eval_runtime_sidecar/handlers/handlers.go:265-290 | cutting query and fragment does not affect a prefix test |
| SidecarRouting.CompactInPlace | internal/eval_runtime_sidecar/handlers/oci.go:107-120 | filtering a slice into its own prefix gives the non-empty parts in order |
| SidecarRouting.SidecarSplitPathSegments | internal/eval_runtime_sidecar/handlers/oci.go:107-120 | the aliasing filter computes the path's segments |
| SidecarRouting.ServerSplitPathSegments | pkg/api/sidecar_url_rewrite.go:190-203 | the fresh-slice filter computes the same segments |
| SidecarRouting.SegmentsAreNonEmptyPieces | pkg/api/sidecar_url_rewrite.go:190-203 | trimming slashes first makes no difference: segments are the non-empty pieces between slashes |
| SidecarRouting.FindRepository | internal/eval_runtime_sidecar/handlers/oci.go:82-105 | the window search finds the repository exactly when it occurs among the segments |
| SidecarRouting.PathSegmentsEqual | internal/eval_runtime_sidecar/handlers/oci.go:122-132 | decides equality |
| SidecarRouting.SidecarOciRouteMatch | internal/eval_runtime_sidecar/handlers/oci.go:82-105 | the sidecar's match is the shared specification on the request path |
| SidecarRouting.ServerOciPathMatchesRepository | pkg/api/sidecar_url_rewrite.go:169-188 | the server's match is the same specification |
| SidecarRouting.ResolveTarget | pkg/api/sidecar_url_rewrite.go:126-149 | the target is the one of the path's class |
| SidecarRouting.RewriteUrl | pkg/api/sidecar_url_rewrite.go:89-124 | one URL is kept, retargeted or stripped according to host and class |
| SidecarRouting.RewriteSidecarUrlsInMessage | pkg/api/sidecar_url_rewrite.go:54-87 | terminates on every input and changes only spans from a base-URL occurrence to the next white space; all other text is copied in order |
| SidecarRouting.RewriteNext | pkg/api/sidecar_url_rewrite.go:64-86 | one turn of the loop consumes text up to the end of the next span |
| SidecarRouting.FindNext | pkg/api/sidecar_url_rewrite.go:64-80 | finds the first remaining occurrence and where its span ends |
| SidecarRouting.ForeignSpansVerbatim | pkg/api/sidecar_url_rewrite.go:89-96 | a message whose spans all name other hosts comes back verbatim |
| ProviderEnrichment.EnrichCollectionFromProviders | internal/eval_hub/handlers/collections.go:186-264 | equals direct per-benchmark lookup, fills unset fields with the duplicate-free union, and asks for each needed provider exactly once, failures included |
| ProviderEnrichment.EnrichCollection | internal/eval_hub/handlers/collections.go:186-264 | the same for one collection and a warm cache |
| ProviderEnrichment.EnrichBenchmarks | internal/eval_hub/handlers/collections.go:186-264 | urls, labels and fetches of a benchmark list |
| ProviderEnrichment.EnrichBenchmark | internal/eval_hub/handlers/collections.go:186-264 | url and labels of one benchmark are those of its catalog entry |
| ProviderEnrichment.GetProvider | internal/eval_hub/handlers/collections.go:186-264 | the memoised answer is the store's, and each id is fetched once |
| ProviderEnrichment.FindBenchmark | internal/eval_hub/handlers/collections.go:186-264 | the first catalog entry with the id |
| ProviderEnrichment.Fill | internal/eval_hub/handlers/collections.go:186-264 | a set field is kept, an unset one lists the union once each |
| ProviderEnrichment.EnrichmentIdempotent | internal/eval_hub/handlers/collections.go:186-264 | enriching again changes nothing, whatever order the first pass chose |
| ProviderEnrichment.FilledFields | internal/eval_hub/handlers/collections.go:240-262 | a set classification field is kept; an unset one holds exactly the labels that the benchmarks' catalog entries have in that field |
| ProviderEnrichment.UnionOfLabels | internal/eval_hub/handlers/collections.go:219-236 | the collected labels, field by field, are those of the benchmarks' catalog entries |
| ProviderEnrichment.EntryIsFirst | internal/eval_hub/handlers/collections.go:213-238 | a benchmark's catalog entry is the first of its id at its provider |
| ProviderEnrichment.EnrichedUrl | internal/eval_hub/handlers/collections.go:197-222 | a benchmark's URL becomes its entry's, or empty; benchmarks without provider or id are left alone |
| ProviderEnrichment.UrlPass | internal/eval_hub/handlers/collections.go:276-302 | the URL pass gives the first non-empty URL of the id, or none, and changes nothing else |
| ProviderEnrichment.EnrichBenchmarkUrlsFromProviders | internal/eval_hub/handlers/collections.go:268-303 | the URL pass over all collections equals direct lookup, leaves everything but URLs alone, and asks for each needed provider exactly once, failures included |
| ProviderEnrichment.EnrichBenchmarkUrls | internal/eval_hub/handlers/collections.go:268-303 | the same for one benchmark list and a warm cache |
| ProviderEnrichment.EnrichBenchmarkUrl | internal/eval_hub/handlers/collections.go:276-302 | one benchmark gets the first non-empty URL of its id |
| ProviderEnrichment.FindUrl | internal/eval_hub/handlers/collections.go:268-303 | the first non-empty URL of the id, or none |
| ProviderEnrichment.PassesAgreeExactly | internal/eval_hub/handlers/collections.go:186-303 | the two passes agree on a URL exactly when no URL-less duplicate shadows it |
| ProviderEnrichment.ShadowedUrl | internal/eval_hub/handlers/collections.go:186-303 | a provider that lists a benchmark twice, first without a URL, gets different URLs from the two passes |
| ProviderEnrichment.UniqueIdsNeverShadow | internal/eval_hub/handlers/collections.go:186-303 | with unique ids nothing is shadowed |
| JobCache.ServedIsFresh | internal/eval_runtime_sidecar/proxy/job_cache.go:71-94 | every answer is the value of the one load that began the residency, and at most ttl plus interval old when a sweep was at most interval ago |
| JobCache.BoundIsReached | internal/eval_runtime_sidecar/proxy/job_cache.go:188-199 | a history in which an answer is exactly that old |
| JobCache.OneLoadPerResidency | internal/eval_runtime_sidecar/proxy/job_cache.go:71-94 | loads of a job are its evictions plus one while it is resident |
| JobCache.SurvivedLastSweep | internal/eval_runtime_sidecar/proxy/job_cache.go:188-199 | what is resident had not expired at the last sweep |
| JobCache.JobInfoCache.Lookup | internal/eval_runtime_sidecar/proxy/job_cache.go:71-77 | serves exactly the resident entry |
| JobCache.JobInfoCache.LoadIfAbsent | internal/eval_runtime_sidecar/proxy/job_cache.go:79-94 | re-checks, loads at most once, and caches no failed load |
| JobCache.JobInfoCache.Sweep | internal/eval_runtime_sidecar/proxy/job_cache.go:188-199 | removes exactly the entries whose deadline is before now |
| JobCache.JobInfoCache.constructor | internal/eval_runtime_sidecar/proxy/job_cache.go:52-66 | an empty cache with a positive time to live |
| Paging.ReadAllPages | internal/collectiondesign/catalog.go:116-133 | for an unchanging list: terminates, gives the list in order, and succeeds exactly when no needed page fails and the context stays open |
| Paging.LinksEndExactly | internal/eval_hub/handlers/helpers.go:26-52 | following next links comes to an end exactly when the list is empty, or the limit is positive and the end of the last page is a Go int |
| Paging.CompleteVisitsAll | internal/eval_hub/handlers/helpers.go:26-52 | a followed-through chain of links visits every item once, in order |
| Paging.ChainVisits | internal/eval_hub/handlers/helpers.go:26-52 | with a positive limit every partial chain has visited a prefix of the list, each row once |
| Paging.ChainOffsets | internal/eval_hub/handlers/helpers.go:26-52 | the offsets of a chain are the multiples of the limit inside the list |
| Paging.StuckAtZero | internal/eval_hub/handlers/helpers.go:130-144 | with limit zero every link leads back to its own page |
| Paging.NextOffsetExact | internal/eval_hub/handlers/helpers.go:26-52 | the next offset is right exactly when offset plus limit fits a Go int; otherwise the link is one the filter refuses |
| Paging.FilterExact | internal/eval_hub/handlers/helpers.go:130-144 | absent parameters are 50 and 0, and exactly the negative ones are refused |
| Paging.ServedRows | internal/eval_hub/storage/sql/shared/helper.go:142-156 | a page holds the rows from its offset on, up to its limit; limit zero is no limit |

## Left out

- SQL statements, transactions and row encoding: storage appears as functions on stored jobs, as an abstract store, or as outcomes of a step.
- Kubernetes and local process runtimes, HTTP servers, TLS, proxies and HTTP clients: plumbing over libraries.
- Metric exporters, durations, logging and spans; threshold notifications after a terminal update: effects with no state of their own. Only the two gauges and the export are modelled.
- Concurrent handlers on the same job: reading the previous state and updating are separate calls, so the gauge laws are for handlers serialised per job.
- Restart of the server: gauges start at zero with an empty store.
- JSON Schema `$ref`, `unevaluatedProperties` and `unevaluatedItems`, which see through the nodes that the rewrite moves: the dialect decides unvisited keywords from their own values only.
- Go maps as shared objects: map nodes of a decoded schema have addresses in a modelled heap, not Dafny object identities.
- Negative array indices and other liberties of the JSON Patch library beyond RFC 6902, and the validation of the patched document.
- The rest of the two allowlists' consequences: the lemmas name the members that must not change or disappear, and the general confinement lemma covers the others.
- A collection that is edited during a job and partial writes of the metadata file: not steps of the resolved-SHA protocol. Its hypotheses are that the codec decodes what it encoded and that benchmarks in collections have ids, which validation requires (pkg/api/common.go:40-42). Posts to other jobs are not modelled.
- Registries that delete or that store blobs under other digests than their own, and concurrent clients of one registry: the push theorem is for neither. Sizes are stated for hashes without collisions.
- Location headers that name another host, authentication tokens, and the reader's chunk buffer: only the answers of the reader matter here.
- White space beyond Latin-1 in trimmed base URLs. Parsing and rendering of whole URLs is a parameter; the agreement of rewriter and router assumes that the base URL is an address without a path and that the path of a URL is parsed like the path of a request target.
- Request targets with two leading slashes, in which url.Parse would see a host: Go's ServeMux redirects them before they reach the sidecar's handler (internal/eval_runtime_sidecar/server/server.go:60-71).
- A nil WorkspaceSupport or nil job records: one-branch guards.
- Loading of a cached job's file (URL, TLS, secrets): its outcome is an input.
- Files that change while a list is read page by page: the paging laws are for an unchanging list. SQLite's refusal of an offset without a limit is not modelled.
- Git cloning, Hugging Face and S3 access, MCP prompts and resources, credential selection, configuration structs: data definitions and access checks.
- OciPush.Client.EnsureBlob: states that the digest is stored, not which bytes a registry keeps under it; that follows from soundness and the absence of collisions.
- ConfigWatcher.NoLostChange: says nothing after cancellation, when pending changes are dropped by design.
