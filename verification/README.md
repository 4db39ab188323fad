# Verified model of the test-optimization uploader

A Dafny model of the parts of `rules_test_optimization` whose correctness is hardest to see by reading: the upload
worker pool, the delivery of one payload file over many runs, the freshness chain that keeps cached outputs away from
the uploader, the workspace lock, and the small compilers, checkers and scanners around them. `dafny verify
dfyconfig.toml` checks everything.

| files | subject |
|---|---|
| `WorkerPool`, `WorkerPoolSafety`, `WorkerPoolProgress`, `Counting` | the bounded worker pool as a transition system: one coordinator, n workers, a bounded FIFO queue, stop markers and an interrupt at any step; safety, accounting, progress, result collection |
| `Wrappers`, `Json`, `Serialization`, `Legibility`, `Splitting` | JSON values, compact serialization and that it can be read in one way only, the byte-bounded cut of a payload into request bodies |
| `Enrichment`, `EnrichmentMeaning`, `Transport`, `FileWorker`, `Delivery` | enrichment and what it writes key by key, the HTTP retry loop, one run over a test file, and any number of runs |
| `Telemetry`, `TelemetryFile`, `TelemetryMeaning` | the telemetry plan, one telemetry file and its retry, what its requests hold |
| `BepFreshness`, `Discovery`, `ExpectedTargets`, `Freshness`, `Paths` | from build events to authorized worker tasks |
| `JsonPointer`, `SchemaValidator`, `SchemaTermination`, `BudgetedValidator` | the payload schema validator: satisfaction, the errors of an unbudgeted run, when validation must end, the budgeted run |
| `Regex`, `CodeOwners`, `Ownership` | CODEOWNERS globs, their direct meaning and their compilation; the owners that enrichment writes |
| `WorkspaceLock` | the Unix lock: any number of processes, crashes at any point, PID reuse |
| `BuildConstraint` | satisfiability of Go build constraints |
| `ManagedSection`, `Starlark` | managed text sections and top-level calls in configuration files |
| `Fingerprint` | the 32-bit API key fingerprint |

Code that updates state step by step is a method or a class with loops and invariants, proved against functions and
relations; what the repository promises is then proved about those. The worker pool and the lock are state machines:
a schedule or a run is any sequence of enabled atomic actions.

## Findings

Each is a lemma with a concrete run or a whole family of inputs, next to the exact condition under which the promise holds.

- `tools/core/uploader_py/worker_pool.py:202-203`: an interrupt between `thread.start()` and the append to
  `started_threads` can leave a live worker that nobody joins. Whatever happened before, every schedule that is
  interrupted there has such an end (`WorkerPoolSafety.WindowLosesWorker`), and every plan has one for each of its
  threads (`WorkerPoolSafety.UnjoinedWorker`); interrupted anywhere else, every thread has been joined
  (`WorkerPoolSafety.EveryThreadJoined`).
- `tools/core/uploader_py/locking.py:178-182`: the workspace lock trusts the age of the directory when the PID file
  cannot be read. A failed read of a live owner's PID file, with a directory older than the threshold, lets a second
  process take the lock (`WorkspaceLock.MisreadBreaksExclusion`); an inspection condemns a live owner's directory exactly
  then (`WorkspaceLock.CondemnsOwner`), and without such a misread at most one live process owns the lock
  (`WorkspaceLock.MutualExclusion`).
- `tools/core/uploader_py/locking.py:137-151`: with `attempts = 1` a stale lock directory is removed but never acquired
  (`WorkspaceLock.OneAttemptOnlyClears`), and a dead owner's directory is reclaimable unless its PID is in use again
  (`WorkspaceLock.DeadOwnerReclaimable`); while it is, no process ever takes it over (`WorkspaceLock.NobodyTakesOver`).
- `tools/core/uploader_py/file_worker.py:385-413`: a run that delivers events but cannot record it delivers them again.
  For every serializable source with events, a run whose requests all succeed, with payloads kept or with a deletion that fails, and then the
  same run again puts every event into two successful requests (`Delivery.DeliveredTwice`). Delivery is exactly once if
  and only if every run records what it delivers (`Delivery.NothingLost`), which the source and what the run meets decide
  before it starts (`Delivery.RecordedIs`): no request succeeds before the first that cannot be prepared; or all can be
  prepared, payloads are not kept, and deleting the source works when every request succeeds, rewriting it works when
  some fails. With working files and requests that can be prepared it is always exactly once (`Delivery.ExactlyOnce`);
  no run loses an event.
- `modules/go/tools/dd_topt_go_bootstrap/main.go:553-560`: a MODULE.bazel with two legacy sections needs two bootstrap
  runs (`ManagedSection.SecondLegacySectionStays`). A second run is a no-op exactly when no legacy marker stands in the
  text that the markers of the file before the first run delimit (`ManagedSection.PatchIdempotent`): always without
  legacy markers (`ManagedSection.NoLegacyIdempotent`); without a new section, when none follows the first legacy
  section (`ManagedSection.MigrationIdempotent`); with a new section, when none is left around it once the first legacy
  section is cut out (`ManagedSection.LegacyAfterIdempotent`, `ManagedSection.LegacyBeforeIdempotent`).
- `tools/core/uploader_py/credentials.py:38-43`: two keys that differ in one character collide exactly when both
  characters lie outside the fingerprint alphabet (`Fingerprint.OneCharacterChange`).
- `tools/core/validate_payload_schema.py:297-331`: the validator follows references that come back to a schema for the
  same value, and then recurses without end; a schema that refers to its own place never settles
  (`SchemaTermination.SelfReference`). A bound on the references that can be followed exists exactly when there is no
  such cycle (`SchemaTermination.RankedExactly`).

## Model

| member | source | states |
|---|---|---|
| WorkerPoolSafety.OnePlace | tools/core/uploader_py/worker_pool.py:97-251 | in every reachable state of every interleaving each planned task is in exactly one of: not enqueued, queued, in one worker's hands, finished with a result, dropped |
| WorkerPoolSafety.NoSharing | tools/core/uploader_py/worker_pool.py:97-165 | no two workers ever hold the same task and no task is published twice |
| WorkerPoolSafety.Accounting | tools/core/uploader_py/worker_pool.py:90-159 | the unfinished count is exactly the queued items plus those owed a task_done, the queue never exceeds its bound, active equals the running workers and peak never exceeds the worker count |
| WorkerPoolSafety.NormalReturn | tools/core/uploader_py/worker_pool.py:202-217 | a normal return leaves the queue empty, nothing owed, every worker exited and exactly one result per planned task |
| WorkerPoolSafety.InterruptedReturn | tools/core/uploader_py/worker_pool.py:186-239 | after an interrupt at any step the queue is empty, registered workers have exited, exactly the started tasks have results and every other task was never enqueued or dropped untouched |
| WorkerPoolSafety.EveryThreadJoined | tools/core/uploader_py/worker_pool.py:186-205 | after an abort no thread is alive unless the interrupt fell between starting a thread and recording it |
| WorkerPoolSafety.WindowLosesWorker | tools/core/uploader_py/worker_pool.py:186-205 | every schedule that stands between starting and recording thread j extends, by an interrupt there, to a finished abort in which worker j is alive and was never joined |
| WorkerPoolSafety.UnjoinedWorker | tools/core/uploader_py/worker_pool.py:202-205 | that window opens for every thread of every plan |
| WorkerPoolSafety.CollectRun | tools/core/uploader_py/worker_pool.py:254-286 | draining the result queue gives the results in intake order, or reports duplicates, unknown tasks or an incomplete run exactly when they occur |
| WorkerPoolSafety.ResultsAreOutcomes | tools/core/uploader_py/worker_pool.py:125-159 | for every schedule each published result comes from a `process_file` call for its task in that schedule, and is the report that call returned, the exception it raised, or the pool's error when it returned for another task |
| WorkerPoolSafety.ProcessedOnce | tools/core/uploader_py/worker_pool.py:101-165 | no schedule calls `process_file` twice for one task |
| WorkerPoolSafety.RunResults | tools/core/uploader_py/worker_pool.py:244-251 | the results of a normal return are one per planned task, in intake order, each the outcome of its own task's call; no collection error can occur |
| WorkerPoolSafety.InterruptedResults | tools/core/uploader_py/worker_pool.py:218-239 | after an interrupt, results plus cancelled equals planned, and each result is the outcome of its own task's call |
| WorkerPoolSafety.Admit | tools/core/uploader_py/worker_pool.py:73-83 | non-positive workers and duplicate ids are rejected, an empty plan starts nothing, and the worker count is the smaller of workers and tasks |
| WorkerPool.StepInv | tools/core/uploader_py/worker_pool.py:97-217 | every atomic step of coordinator or worker keeps the inductive invariant |
| WorkerPool.Reachable | tools/core/uploader_py/worker_pool.py:97-217 | the invariant holds after every schedule |
| WorkerPool.TerminalResult | tools/core/uploader_py/worker_pool.py:137-155 | an owned task always gets a result with its own id: the report that process_file returned for it, else the exception it raised or the pool's error for another id |
| WorkerPoolProgress.StepMeasure | tools/core/uploader_py/worker_pool.py:101-217 | every enabled action except idle polling strictly lowers a lexicographic measure |
| WorkerPoolProgress.BoundedWork | tools/core/uploader_py/worker_pool.py:97-217 | no schedule takes more than a fixed number of actions besides idle polling |
| WorkerPoolProgress.NoDeadlock | tools/core/uploader_py/worker_pool.py:90-217 | from every unfinished reachable state at most two actions make progress: a live worker exists whenever the coordinator is blocked |
| WorkerPoolProgress.Completes | tools/core/uploader_py/worker_pool.py:202-242 | every reachable state can be completed without a further interrupt |
| WorkerPoolProgress.NormalCompletion | tools/core/uploader_py/worker_pool.py:202-251 | every uninterrupted run can be completed to a normal return |
| Splitting.PrepareTestChunks | tools/core/uploader_py/splitting.py:60-145 | the errors, each with its exact condition, and success exactly when the payload can be cut within the limit and each file of the least cut can be written; on success the chunks tile the events, every body is byte for byte the canonical serialization of its slice within the limit, and no partition has fewer chunks; a size error is raised exactly when no partition exists, for the envelope or for the first event that does not fit alone |
| Splitting.EventArrayFrame | tools/core/uploader_py/splitting.py:148-175 | prefix, comma-joined events and suffix are the canonical serialization for any list of events, at any position of the events key |
| Splitting.SliceSize | tools/core/uploader_py/splitting.py:113-131 | the running size of a chunk is exactly the size of its body, so the internal assertion is unreachable |
| Splitting.GreedyRanges | tools/core/uploader_py/splitting.py:117-129 | the cut loop yields non-empty ranges in order that fit, each of which would overflow with one more event |
| Splitting.StaysAhead | tools/core/uploader_py/splitting.py:117-129 | the k-th greedy range ends no earlier than the k-th range of any other valid cut |
| Splitting.GreedyIsOptimal | tools/core/uploader_py/splitting.py:117-129 | no contiguous cut within the limit has fewer chunks |
| Splitting.NoPartition | tools/core/uploader_py/splitting.py:97-114 | an event that does not fit alone rules out every partition |
| Legibility.EncodeInjective | tools/core/uploader_py/splitting.py:40-48 | two JSON values with the same compact text are the same value, key order included, for any printer whose scalars and keys can be told apart by what follows them |
| Legibility.BodyReads | tools/core/uploader_py/splitting.py:131-145 | a chunk's body is the text of one value only: the payload with exactly the chunk's events |
| Legibility.EqualBodies | tools/core/uploader_py/splitting.py:131-145 | equal bodies hold equal events between equal other fields |
| Enrichment.EnrichTestPayload | tools/core/uploader_py/enrichment.py:91-179 | metadata defaults, context then Bazel merge and CODEOWNERS in place equal the specification of the enriched payload, and the counters are those of the merged events |
| Enrichment.StatsAccount | tools/core/uploader_py/codeowners.py:456-507 | the counters of any payload add up: every scanned event is enriched, already owned, without source or unmatched, and the error branch is never taken |
| Enrichment.MergeFlatMetadata | tools/core/uploader_py/enrichment.py:189-206 | booleans become text, numbers go to metrics, other values become text, later writes win |
| EnrichmentMeaning.MergedValues | tools/core/uploader_py/enrichment.py:131-206 | in a merged event Bazel's text wins over the context's and that over the event's own, numbers likewise among the metrics, the API key fingerprint never comes from the context, and nothing else changes |
| EnrichmentMeaning.OwnersPlaced | tools/core/uploader_py/codeowners.py:479-507 | exactly the events that are no spans, have no owners of their own and whose source path has owners get those owners; nothing else changes |
| EnrichmentMeaning.SourcePathIs | tools/core/uploader_py/codeowners.py:433-454 | which of the six source entries of an event counts |
| EnrichmentMeaning.GlobalMeans | tools/core/uploader_py/enrichment.py:100-129 | the producer's own metadata default stands, else the context's by its names in order, else the fixed one |
| EnrichmentMeaning.MetadataMeans | tools/core/uploader_py/enrichment.py:125-129 | of the producer's metadata only the entries of the four event kinds survive, when not null |
| Enrichment.EnrichCodeOwners | tools/core/uploader_py/codeowners.py:479-507 | lookups through the shared cache give the same events and counters as uncached ones |
| Enrichment.EnrichEventIdempotent | tools/core/uploader_py/enrichment.py:131-179 | enriching an enriched event changes nothing |
| Enrichment.EnrichIdempotent | tools/core/uploader_py/enrichment.py:91-179 | enriching an enriched payload changes nothing, with or without events, in the same or a later invocation with the same context |
| Enrichment.GlobalFixed | tools/core/uploader_py/enrichment.py:100-129 | metadata defaults chosen once are chosen again, even with another generated runtime id |
| Enrichment.RetainedIsFixed | tools/core/uploader_py/enrichment.py:91-206 | a payload cut down to some of its enriched events enriches to itself, key order included |
| Transport.Post | tools/core/uploader_py/transport.py:585-695 | 1 <= attempts <= max, one bounded delay per retry, every non-final attempt retryable, the loop never falls through |
| Transport.Bounded | tools/core/uploader_py/transport.py:287-294 | a delay within bounds is kept, infinities are clamped, only NaN is rejected |
| Transport.OutcomeUnique | tools/core/uploader_py/transport.py:585-695 | the attempts determine the result, including every delay |
| FileWorker.ProcessTest | tools/core/uploader_py/file_worker.py:259-435 | one run, dry or not: source after the run, requests made and counters, for every outcome, with exact chunks or a justified size error, and a split error exactly when the payload cannot be split and written |
| FileWorker.SourceFile.PersistFailed | tools/core/uploader_py/file_worker.py:1145-1164 | the source becomes the payload with exactly the events of the failed chunks, in order |
| FileWorker.SourceFile.Cleanup | tools/core/uploader_py/file_worker.py:1125-1142 | the source disappears exactly when payloads are not kept and deletion works |
| FileWorker.SendAll | tools/core/uploader_py/file_worker.py:334-383 | a failed request does not stop the loop, a local preparation error does; counters match the results |
| Delivery.ReportAccounting | tools/core/uploader_py/file_worker.py:334-435 | a run that made all its requests reports attempted = planned + retries and uploaded + failed = created, and succeeds exactly when nothing failed |
| Delivery.StepConserves | tools/core/uploader_py/file_worker.py:385-435 | one run removes events from the source only through successful requests, in order, and exactly once if and only if it recorded them |
| Delivery.NothingLost | tools/core/uploader_py/file_worker.py:259-435 | over any runs with any outcomes every event is in a successful request or still in the source, in order; delivered exactly once if and only if every run was such that it records what it delivers |
| Delivery.RecordedIs | tools/core/uploader_py/file_worker.py:334-427 | whether a run records what it delivers is decided by its source and what it meets: the number of chunks, the requests that succeed before the first that cannot be prepared, whether payloads are kept, and whether deleting or rewriting works |
| Delivery.ExactlyOnce | tools/core/uploader_py/file_worker.py:385-427 | where files can be deleted and rewritten, payloads are not kept and requests can be prepared, every event is delivered exactly once or still in the source, whatever HTTP does |
| Delivery.DeliveredTwice | tools/core/uploader_py/file_worker.py:415-427 | for every serializable source: a run whose requests all succeed, with payloads kept or a failing deletion, and the same run again put every event into two successful requests |
| Delivery.RetainedSplitsAgain | tools/core/uploader_py/file_worker.py:385-400 | a source that a run rewrote never fails for its size again in the same context |
| Delivery.RetainedRemaining | tools/core/uploader_py/file_worker.py:1145-1164 | a later run would send exactly the retained events, unchanged by its own enrichment |
| JsonPointer.ResolveRef | tools/core/validate_payload_schema.py:215-245 | the segment loop equals following the JSON Pointer segment by segment, with every error case |
| JsonPointer.UnescapeEscape | tools/core/validate_payload_schema.py:226-227 | undoing ~1 before ~0 inverts the escaping of any key |
| JsonPointer.ResolvePointer | tools/core/validate_payload_schema.py:215-245 | the JSON Pointer written for a path resolves to the value at that path |
| SchemaValidator.ErrsSat | tools/core/validate_payload_schema.py:254-464 | an unbudgeted run reports nothing exactly when the value satisfies the schema |
| SchemaValidator.PropertySchemasAre | tools/core/validate_payload_schema.py:399-436 | a property answers to its own schema and to every matching pattern's, and to additionalProperties exactly when neither speaks of it |
| SchemaValidator.ItemSchemasAre | tools/core/validate_payload_schema.py:437-464 | an item answers to the one schema of items, to the schema at its position, or behind the last one to additionalItems |
| SchemaTermination.RankedExactly | tools/core/validate_payload_schema.py:254-354 | a bound on the references followed for one value exists exactly when no chain of references and subschemas comes back to a schema; then no chain follows more references than the schema document has values |
| SchemaTermination.SelfReference | tools/core/validate_payload_schema.py:298-309 | a schema that refers to its own place is such a cycle, and no number of references settles it |
| BudgetedValidator.Validate | tools/core/validate_payload_schema.py:254-464 | whatever the list held before, the budgeted run appends what the unbudgeted run would, up to the budget |
| BudgetedValidator.ValidatePayload | tools/core/validate_payload_schema.py:467-500 | for any positive budget the payload is valid exactly when it satisfies the schema, and the first errors are those of the unbudgeted run |
| BudgetedValidator.MatchAnyOf | tools/core/validate_payload_schema.py:315-331 | anyOf decided through budgeted sub-lists equals anyOf decided without budget |
| CodeOwners.GlobMeaning | tools/core/uploader_py/codeowners.py:233-269 | the compiled pieces match exactly the substrings the glob matches when read directly |
| CodeOwners.CompilePattern | tools/core/uploader_py/codeowners.py:297-308 | fails exactly on an empty pattern or a reversed character range; otherwise searching a path succeeds exactly when the glob matches from an allowed start to an allowed end |
| CodeOwners.OwnsForms | tools/core/uploader_py/codeowners.py:297-308 | a leading or inner slash ties a glob to the root, else it matches from any segment; a trailing slash asks for something below |
| CodeOwners.CharacterClass | tools/core/uploader_py/codeowners.py:272-294 | the class text: negation, leading bracket, escapes, and where an unclosed class falls back to a literal |
| CodeOwners.ClassMeaning | tools/core/uploader_py/codeowners.py:272-294 | a compiled class matches exactly the characters it lists, or the others when negated |
| CodeOwners.MatchCandidate | tools/core/uploader_py/codeowners.py:91-98 | the last rule that owns the candidate, or none |
| CodeOwners.MatchSource | tools/core/uploader_py/codeowners.py:78-89 | the first candidate that some rule owns decides |
| Ownership.LookUp | tools/core/uploader_py/codeowners.py:40-98 | the search loops and the removal of repeated owners give the specified JSON text of a source's owners |
| Ownership.DedupedIs | tools/core/uploader_py/codeowners.py:429-430 | each non-empty owner once, in the order of first occurrence |
| Ownership.OwnersWritten | tools/core/uploader_py/codeowners.py:456-507 | an event that is given owners is given those of the last rule that owns its first owned candidate path; an event counted as unmatched has no deciding rule that names owners |
| WorkspaceLock.StepInv | tools/core/uploader_py/locking.py:135-255 | every step of every process, crashes and PID reuse included, keeps the lock invariant unless it misreads a live owner's metadata |
| WorkspaceLock.MutualExclusion | tools/core/uploader_py/locking.py:128-255 | over all interleavings at most one live process owns the lock and the directory names it |
| WorkspaceLock.NobodyElseRemoves | tools/core/uploader_py/locking.py:175-231 | no step of another process changes a live owner's directory |
| WorkspaceLock.CondemnsOwner | tools/core/uploader_py/locking.py:175-192 | an inspection judges a live owner's directory dead exactly when its read fails and the directory is old |
| WorkspaceLock.MisreadBreaksExclusion | tools/core/uploader_py/locking.py:175-207 | such a misread leads to two owners |
| WorkspaceLock.DeadOwnerReclaimable | tools/core/uploader_py/locking.py:135-192 | a dead owner's directory is taken over in one call, unless its recorded PID is in use |
| WorkspaceLock.BlockedStays | tools/core/uploader_py/locking.py:137-151 | in any run in which the recorded PID stays in use, an acquirer whose reads succeed never owns the lock and never changes the directory |
| WorkspaceLock.NobodyTakesOver | tools/core/uploader_py/locking.py:135-192 | once an owner has died and its PID is in use again, no process takes the lock over in any run in which that PID stays in use and reads succeed |
| WorkspaceLock.OneAttemptOnlyClears | tools/core/uploader_py/locking.py:135-173 | a single attempt clears a stale directory without acquiring it |
| WorkspaceLock.ReleaseGivesBack | tools/core/uploader_py/locking.py:209-231 | a release always ends the ownership, and leaves the directory behind exactly when reading the pid file, unlinking it or removing the directory fails |
| WorkspaceLock.ReleasedAcquirable | tools/core/uploader_py/locking.py:135-173 | after a release that worked any process that is ready acquires the lock in one call |
| WorkspaceLock.AcquireReleaseRestores | tools/core/uploader_py/locking.py:135-231 | acquiring a free lock and releasing it restores the state |
| WorkspaceLock.AbandonedRelease | tools/core/uploader_py/locking.py:209-217 | a release that cannot enter the guard ends the ownership and leaves the directory |
| WorkspaceLock.FailedAcquisitionRestores | tools/core/uploader_py/locking.py:159-168 | an acquisition whose pid file cannot be created or written takes its directory away again |
| WorkspaceLock.InspectionDecides | tools/core/uploader_py/locking.py:175-192 | an acquirer gives up on a living owner, reclaims from a dead one or from an old directory without a readable pid, and else tries again |
| WorkspaceLock.ExhaustedCallFails | tools/core/uploader_py/locking.py:135-173 | a call whose attempts are used up fails and leaves everything as it found it |
| BepFreshness.ParseBepFreshness | tools/core/test_optimization_doctor.py:1551-1736 | the line and file loops compute the union of per-event contributions, and fail exactly on unreadable input or ambiguity |
| BepFreshness.OrderIndependent | tools/core/test_optimization_doctor.py:1562-1727 | all sets, and whether parsing fails for ambiguity, depend only on the multiset of events |
| BepFreshness.SameLists | tools/core/test_optimization_doctor.py:1562-1706 | the reference and remote-only lists hold the same elements whatever the order of events |
| BepFreshness.EligibleSource | tools/core/test_optimization_doctor.py:1623-1706 | an output is eligible exactly when some event reports it that is not cached and has no counted remote reference |
| BepFreshness.EligibleMeans | tools/core/test_optimization_doctor.py:1623-1706 | an output is eligible exactly when some event shows it uncached, without a remote location that counts |
| BepFreshness.CachedMeans | tools/core/test_optimization_doctor.py:1623-1706 | an output is cached exactly when some event shows it cached, locally or remotely |
| BepFreshness.MissingMeans | tools/core/test_optimization_doctor.py:1706-1712 | a target misses its mapping exactly when some event shows it uncached, with no mapped output and nothing remote that counts |
| BepFreshness.RemoteMeans | tools/core/test_optimization_doctor.py:1686-1706 | the remote-only outputs are exactly the remote locations that count |
| BepFreshness.ReferenceMeans | tools/core/test_optimization_doctor.py:1662-1687 | the artifact references are exactly those that the outputs of usable results record |
| BepFreshness.BlockedMeans | tools/core/test_optimization_doctor.py:1482-1490 | in download mode exactly the targets with an uncached output that looks like test outputs but maps to no directory are blocked; in other modes none |
| BepFreshness.SelectedMeans | tools/core/test_optimization_doctor.py:1465-1479 | selected for staging is exactly what an uncached, mapped carrier shows that is local or may be remote |
| BepFreshness.FreshIsExclusive | tools/core/test_optimization_doctor.py:1709-1727 | on success no event reports an eligible output cached and its target is never skipped |
| BepFreshness.Freshness.ApplyStaged | tools/core/test_optimization_doctor.py:1493-1512 | staged outputs join the eligible set, keeping it disjoint from the cached set, or the call fails |
| Discovery.DiscoverFileTasks | tools/core/uploader_py/discovery.py:96-193 | one directory per key, in key order, staged for every selected key, and each resolved file once |
| Discovery.ChoiceIsFirst | tools/core/uploader_py/discovery.py:120-133 | of the directories that may stand for a key, the first in the order of the scan roots does |
| Discovery.TaskUnderFirst | tools/core/uploader_py/discovery.py:136-193 | each file has its one task under the first directory that shows it |
| Discovery.SelectedKeysAreStaged | tools/core/uploader_py/discovery.py:120-133 | a task of a selected key reads a staged file, never a local one |
| ExpectedTargets.SelectExpectedOutputs | tools/core/uploader_py/expected_targets.py:89-145 | outputs are kept exactly when they have one most specific target, all their tasks are kept and carry it; refused exactly on a tie or on a missing target where none may be missing |
| ExpectedTargets.TieMeansSamePath | tools/core/uploader_py/expected_targets.py:104-118 | two most specific targets of one output have identical path parts |
| ExpectedTargets.OutputBelongs | tools/core/uploader_py/expected_targets.py:194-207 | a test.outputs directory below the path of a label belongs to it exactly when every directory in between is one of a shard, run or attempt |
| Freshness.FilterDiscovery | tools/core/uploader_py/freshness.py:259-329 | outputs are kept exactly when authorized, tasks follow their outputs, and missing metadata fails exactly in required mode |
| Freshness.BuildPlan | tools/core/uploader_py/freshness.py:487-533 | eligible and cached pairs, missing and skipped targets are exactly those of the expected targets, and remote-only outputs of expected targets are refused exactly in a required mode |
| Freshness.ContextMeans | tools/core/uploader_py/freshness.py:140-190 | the blocked, eligible, cached and selected sets and the remaining remote outputs of an invocation, said of its build events |
| Freshness.FilteredAuthorized | tools/core/uploader_py/freshness.py:259-329 | every task that passes carries the label that authorizes its output: eligible, not cached, not blocked |
| Freshness.PrepareTasks | tools/core/uploader_py/application.py:182-207 | from BEP files to tasks: the exact condition of every refusal; otherwise exactly the chosen directories whose label authorizes them are passed on, each with exactly its own files; said of the build events, no task carries a withheld label, each is vouched for by an event or by staging, none is reported cached, and none falls back from an artifact that must be staged to a local file |
| BuildConstraint.Satisfiable | modules/go/tools/registration/main.go:140-160 | exact up to sixteen tags besides ignore, and true beyond |
| BuildConstraint.Collector.Collect | modules/go/tools/registration/main.go:162-177 | tags are collected once each, completely, without ignore |
| BuildConstraint.MaskReaches | modules/go/tools/registration/main.go:146-157 | every assignment with ignore false is evaluated by some mask below 2^n |
| ManagedSection.ReplacePlaces | modules/go/tools/dd_topt_go_bootstrap/main.go:1449-1470 | a successful rewriting puts the block in its place and keeps the text outside the markers |
| ManagedSection.ReplaceExactly | modules/go/tools/dd_topt_go_bootstrap/main.go:1449-1470 | a rewriting succeeds exactly on text without markers or with the first end marker behind the first start marker; what it makes of either |
| ManagedSection.ReplaceIdempotent | modules/go/tools/dd_topt_go_bootstrap/main.go:1449-1470 | rewriting again with the same block changes nothing |
| ManagedSection.PatchExactly | modules/go/tools/dd_topt_go_bootstrap/main.go:551-564 | the files, legacy markers included, on which a run of the section migration succeeds |
| ManagedSection.FirstRunAppends | modules/go/tools/dd_topt_go_bootstrap/main.go:551-564 | a file without any marker always succeeds: the block is appended behind an empty line |
| ManagedSection.PatchKeeps | modules/go/tools/dd_topt_go_bootstrap/main.go:551-564 | a run that succeeds writes the block between exactly the text that the markers delimit |
| ManagedSection.BlockIsSection | modules/go/tools/dd_topt_go_bootstrap/main.go:606-614 | a start marker, lines without comments and an end marker, each on lines of their own, are a section in the sense of all these results |
| ManagedSection.PatchIdempotent | modules/go/tools/dd_topt_go_bootstrap/main.go:551-564 | a second run of the section migration is a no-op exactly when no legacy marker stands in the text that the markers of the file before the first run delimit |
| ManagedSection.NoLegacyIdempotent | modules/go/tools/dd_topt_go_bootstrap/main.go:551-564 | without legacy markers the second run is always a no-op |
| ManagedSection.MigrationIdempotent | modules/go/tools/dd_topt_go_bootstrap/main.go:555-560 | without a new section the second run is a no-op exactly when no legacy marker follows the first legacy section |
| ManagedSection.LegacyAfterIdempotent | modules/go/tools/dd_topt_go_bootstrap/main.go:553-554 | with the first legacy section behind the new one, exactly when no legacy marker is left once that section is cut out |
| ManagedSection.LegacyBeforeIdempotent | modules/go/tools/dd_topt_go_bootstrap/main.go:553-554 | with the first legacy section before the new one, exactly when no legacy marker is left before or after the new section |
| ManagedSection.SecondLegacySectionStays | modules/go/tools/dd_topt_go_bootstrap/main.go:551-564 | with a second legacy section the second run changes the file |
| Starlark.MaskStringsAndComments | modules/go/tools/dd_topt_go_bootstrap/main.go:2013-2053 | the byte array blanked in place equals the masked text |
| Starlark.MaskMeaning | modules/go/tools/dd_topt_go_bootstrap/main.go:2010-2053 | masking keeps length and newlines, only blanks characters, and leaves no quote or comment sign |
| Starlark.StringEndIs | modules/go/tools/dd_topt_go_bootstrap/main.go:2036-2047 | a string ends behind the first delimiter with an even number of backslashes before it, or with the file |
| Starlark.TokenEndIs | modules/go/tools/dd_topt_go_bootstrap/main.go:2023-2049 | a comment is blanked to the end of its line, a string with its one or three quotes to its end |
| Starlark.CodeUntouched | modules/go/tools/dd_topt_go_bootstrap/main.go:2013-2053 | code before the first string or comment masks to itself |
| Starlark.MaskIdempotent | modules/go/tools/dd_topt_go_bootstrap/main.go:2013-2053 | masking a masked text changes nothing |
| Starlark.MaskedLinesAlign | modules/go/tools/dd_topt_go_bootstrap/main.go:1968-1970 | masked and original lines stand at the same offsets |
| Starlark.TopLevelCallBlocks | modules/go/tools/dd_topt_go_bootstrap/main.go:1968-2008 | the blocks are the whole-line call spans of the masked view with the original text |
| Starlark.BlocksDisjoint | modules/go/tools/dd_topt_go_bootstrap/main.go:1968-2008 | call blocks are disjoint increasing intervals of whole lines |
| Starlark.SpansCover | modules/go/tools/dd_topt_go_bootstrap/main.go:1974-1979 | every line that starts a call lies in some block |
| Starlark.LastLineCloses | modules/go/tools/dd_topt_go_bootstrap/main.go:1980-1990 | a block ends with the first line that closes its parentheses, or with the file |
| Starlark.DepthCounts | modules/go/tools/dd_topt_go_bootstrap/main.go:1981 | the depth of a line is its opening minus its closing parentheses |
| Starlark.RemoveNamedTarget | modules/go/tools/dd_topt_go_bootstrap/main.go:2067-2088 | exactly the characters of the target's blocks are removed |
| Telemetry.BuildTelemetryPlan | tools/core/uploader_py/telemetry.py:76-217 | every source gets the directive that its group's facts dictate |
| Telemetry.LanguageIs | tools/core/uploader_py/telemetry.py:104-126 | facts go to the only language of their service, else to the one their runtime names if the service has it, else nowhere |
| Telemetry.ChooseAnchor | tools/core/uploader_py/telemetry.py:152-178 | choosing the best stream and then its best source finds the latest batch source of the group, or the latest source when there is no batch |
| Telemetry.OneCarrier | tools/core/uploader_py/telemetry.py:152-209 | a group with messages and no conflict has exactly one carrier, with all of them; it appends exactly when some source is a batch, else its sequence id exceeds all in its stream |
| Telemetry.FactCarried | tools/core/uploader_py/telemetry.py:101-209 | every usable count or distribution of a conflict-free group reaches that carrier and no other source of the group |
| Telemetry.RecordsConserved | tools/core/uploader_py/telemetry.py:101-209 | over all sources the attached counts, and the attached distributions, are with multiplicity exactly the usable records of the facts files whose group exists and agrees on the environment |
| Telemetry.OverrideIs | tools/core/uploader_py/telemetry.py:142-153 | a source's environment is overridden exactly when its group's facts files name one and agree on it, and with that one |
| Telemetry.PlanOrderIndependent | tools/core/uploader_py/telemetry.py:76-217 | the plan does not depend on the order of tasks and facts files |
| TelemetryFile.RewriteTwice | tools/core/uploader_py/file_worker.py:996-1028 | once provider tags are rewritten, no later rewriting changes them, whatever its suffix, through nested batches |
| TelemetryFile.RetriedSame | tools/core/uploader_py/file_worker.py:725-742 | a persisted request is re-sent as the only request with the same JSON value, unmarked and not augmented again, under any later plan and provider suffix that is not the first one to exist |
| TelemetryFile.OnlyFailedAgain | tools/core/uploader_py/file_worker.py:842-874 | where a run rewrites the source, the next run sends exactly the requests that failed, under any later plan and provider suffix that is not the first one to exist |
| TelemetryFile.TelemetrySource.Process | tools/core/uploader_py/file_worker.py:704-889 | one run over a telemetry file, dry or not: deleted, replaced by the only failed request, or kept, with each request's result |
| TelemetryMeaning.RequestsMean | tools/core/uploader_py/file_worker.py:725-770 | a telemetry file sends its own request and, where planned, the synthesized one, both with provider tags rewritten; none when its metadata is invalid |
| TelemetryMeaning.BodyMeans | tools/core/uploader_py/file_worker.py:892-952 | the request keeps every entry of the source but the retry marker; a first sending gets the planned environment and, behind its own payload, the planned messages; a retry gets neither |
| TelemetryMeaning.SyntheticMeans | tools/core/uploader_py/file_worker.py:971-993 | the synthesized request is a message batch of exactly the planned messages under the source's application, runtime and host |
| TelemetryMeaning.RewriteFrees | tools/core/uploader_py/file_worker.py:996-1028 | rewriting leaves no bare provider tag at any depth of batches, and a message without one is not touched |
| Fingerprint.StepInjective | tools/core/uploader_py/credentials.py:42-43 | each XOR-then-multiply step is injective in the value and in the character code |
| Fingerprint.ApiKeyFingerprint | tools/core/uploader_py/credentials.py:32-44 | the loop computes the specified 32-bit value as eight hexadecimal digits |
| Fingerprint.OneCharacterChange | tools/core/uploader_py/credentials.py:32-44 | keys of equal length that differ in one position have the same fingerprint exactly when both characters are outside the alphabet |
| Fingerprint.OutsideCodes | tools/core/uploader_py/credentials.py:39-41 | characters outside the alphabet share seven codes by their position |
| Fingerprint.KnownFingerprint | tools/core/uploader_py/credentials.py:32-44 | the key of one zero digit has the 32-bit FNV-1a fingerprint of a zero |

## Left out

- Queue, event and lock primitives of Python's `threading` and `queue` are atomic actions; fairness of the operating system's scheduler is not modelled (progress is: some action is always possible and productive actions are bounded).
- A second interrupt while the first is being handled, and `process_file` raising something other than `Exception`.
- JSON text lexing, float formatting, string escaping and non-finite numbers: scalars and keys are printed by an abstract printer, and JSON numbers are reals with an integer flag.
- Writing a JSON value to a source file and reading it back is taken to give the same value; enrichment of a decoded payload is taken not to raise.
- Files and networks: a source file is absent or one decoded value; deletion, replacement, directory and request preparation are outcomes given as inputs, and an HTTP attempt is a status or a transport error. Gzip, multipart bodies, proxies, TLS and headers are not part of this model.
- Keyword values of the wrong JSON type in a schema (a non-list `allOf`, a non-string `$ref`): the source raises or iterates them in Python's way; the model reads them as absent. Validator statistics and warnings are not modelled.
- Same-value `$ref` cycles in a schema: `SchemaValidator.Ranked` excludes them, exactly (`SchemaTermination.RankedExactly`). A cycle that a given value never reaches, because an earlier `anyOf` branch matches, a condition selects the other branch or the error budget ends, does not make the source recurse; such values are not modelled.
- Non-ASCII digits in JSON Pointer array indices.
- Regular expressions beyond the shapes that CODEOWNERS patterns compile to; `patternProperties`, the shard and attempt directory pattern, and the Starlark call-start and name patterns are abstract predicates.
- Paths with newlines, where `.` and `$` behave differently, for CODEOWNERS matching; derivation of candidate paths and parsing of CODEOWNERS lines.
- The Windows branch of the lock, symbolic links in its place, and shell uploaders that do not take the guard lock. The flag `_owned` of a releasing process stays set for a moment after its directory is gone; ownership ends, in the model, when the directory is given up.
- Materializing staged artifacts: the staged pairs are an arbitrary set, which the merge checks; `_dedupe_stageable_artifact_references` and the normalization of selected keys are not modelled.
- The execution-log freshness source, expected-target files, and the validation after the workers that every fresh output was accounted for.
- Grouping telemetry sources and facts in dictionaries: groups are computed by filtering; the plan visits stream keys in any order, which does not matter because groups are disjoint. Warning codes are not modelled.
- Wait for quiescence, coverage uploads, support bundles, CLI parsing, report rendering.
- Serialization.Join: bytes of scalars come from the printer, so canonical means canonical relative to that printer; that its scalars and strings can be told apart is the assumption `Legibility.Legible`, which holds of quoted and escaped strings, literals and decimal numbers but is not proved of Python's.
