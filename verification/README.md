# AI research workbench: verified model of its core

A Dafny 4.11 model of the parts of the workbench whose correctness is not visible from one function: the
two-store artifact protocol, the document chunker, the browser's idempotency keys, the worker scheduler, the stage
handler and its budget, the two rate limiters, sessions, migrations, the QA engine, the release gate, the export
encoders, canonical JSON, address classification and the redirect loop. `dafny verify dfyconfig.toml` checks everything.

How the parts are modelled:

- Code that changes state in place is a class or a method with loops (`ApiClient`, `Worker`, `StageRun`,
  `AuthDatabase`, `Database`, `RateLimiter`, `Client`, `Collector`, `SplitBlock`, `GroupUnits`, `RunQaRules`,
  `EvaluateCorpus`, ...), each proved against a specification; code made of expressions is functions and lemmas.
- Asynchronous code is a sequence of atomic steps between two `await`s, and an SQL transaction is one step. The
  artifact store and the worker are state machines whose runs are arbitrary interleavings of such steps.
- Clocks, randomness, DNS, HTTP, hash functions, URL parsing and regular expressions are parameters.
- Floating-point numbers are exact (`real`).

Where the code and its intent part, the code is modelled as it is, with the input that shows it and the exact condition:

- `HttpRateLimit`: a fixed window admits up to `2 * limit - 1` requests in an interval of one window, and some
  sequence reaches that number for every `limit >= 1` and window of at least two milliseconds (`BoundIsReached`).
- `LoginRateLimit`: an interval of one window can hold more than the failures of one window; the exact limit is two
  bursts of `maximumAttempts` and one failure for each block that runs out between them, reached for every valid
  configuration (`FailureBound`, `SlidingLimitReached`).
- `LoginRateLimit`: a block refuses every attempt made during it if and only if it ends no later than the window it
  was set in (`BlockLastsIff`); for every valid configuration some sequence of attempts is let through while
  `blockedUntil` still lies in the future (`BlockEndsWithWindow`).
- `DurableWorker`: with polls that do not overlap the capacity bound holds in every run (`NeverOverCapacity`); for every
  valid configuration with a handler, some run with two overlapping polls exceeds it (`OverlapExceeds`).
- `PipelineHandler`: the output is recorded before the postflight, so a retry can commit an output whose postflight
  was refused or never made; a retry without faults does so if and only if no call that blocks the stage took effect
  (`Retry`), and under every budget that allows one more call some attempt and retry do (`RefusedYetCommitted`).
- `Migrations`: a row whose checksum is the empty string is accepted but never filled in, so a completed run matches
  the inventory if and only if there is no such row (`RunMatchesIff`, `EmptyChecksumStays`).
- `StableJson`: a tree has one form if and only if no object in it, at any depth, has two different keys that compare
  as equal (`OneFormIff`; `Disturb` builds the other tree). `localeCompare` does equate some different strings, for
  instance canonically equivalent ones; all trees have one form if and only if the order never does (`CanonicalIff`).

## Model

| member | source | states |
|---|---|---|
| `ArtifactStore.StepKeeps` | lib/services/generated-artifacts.ts:165-330 | every effect of a persist or discard, every crash and every lost connection keeps the invariant, and moves the retention of a row by at most one step: ACTIVE to PENDING_DELETE or PENDING_DELETE to DELETED |
| `ArtifactStore.StepMoves` | lib/services/generated-artifacts.ts:271-330 | the one-step relation on its own: no event takes a row from ACTIVE to DELETED, and its upload status changes only on the way from PENDING_DELETE to DELETED |
| `ArtifactStore.BegunIff` | lib/services/generated-artifacts.ts:54-148 | a persist begins if and only if artifact id, filename, content type and creator have their form, the bytes are neither none nor more than allowed, and the configured provider is that of the call |
| `ArtifactStore.MatchesNewRow` | lib/services/generated-artifacts.ts:81-109 | a row passes the comparison exactly when each of its ten columns is what this persist would write |
| `ArtifactStore.RunKeeps` | lib/services/generated-artifacts.ts:165-330 | over every interleaving of persists and discards with faults anywhere, the invariant holds and no row disappears or loses a recorded column |
| `ArtifactStore.NeverSkipsPending` | lib/services/generated-artifacts.ts:271-330 | over every run from a state that satisfies the invariant, a row that goes from ACTIVE to DELETED is PENDING_DELETE at some moment |
| `ArtifactStore.CrashSafety` | lib/services/generated-artifacts.ts:81-109 | in every reachable state a row that is ACTIVE, AVAILABLE and VERIFIED has its object at its key with the recorded hash, and a row that was ACTIVE and is DELETED was PENDING_DELETE in between |
| `ArtifactStore.ReturnsAgree` | lib/services/generated-artifacts.ts:219-230 | all references ever returned for one artifact identity agree except for `replayed` |
| `ArtifactStore.PersistSucceedsIff` | lib/services/generated-artifacts.ts:138-248 | an undisturbed persist returns a reference if and only if the identity is free or already holds this content, and otherwise changes nothing |
| `ArtifactStore.PersistLeaves` | lib/services/generated-artifacts.ts:138-248 | what a successful persist leaves: every column of the row, an object with the hash of the bytes at its place, nothing else changed, and the reference, `replayed` exactly if the row or the object was there |
| `ArtifactStore.CrashThenRetry` | lib/services/generated-artifacts.ts:231-247 | after a crash at any effect, repeating the persist with the same bytes succeeds and leaves both stores as one undisturbed call would |
| `ArtifactStore.DiscardSucceedsIff` | lib/services/generated-artifacts.ts:271-330 | an undisturbed discard ends with the row DELETED, its upload removed and no object at its place if and only if the row has the provider, bucket, key and hash of the reference and is ACTIVE or PENDING_DELETE; otherwise both stores are as before |
| `ArtifactStore.DiscardAgain` | lib/services/generated-artifacts.ts:271-330 | a crash after any effect of a discard, followed by a repeated discard, ends in the world that one undisturbed call leaves, for a discard that is refused as well |
| `ArtifactStore.Disconnected` | lib/services/generated-artifacts.ts:210-247 | a process that has lost its connection changes no row and returns no new reference |
| `ArtifactStore.DeleteKeeps` | lib/services/generated-artifacts.ts:291-312 | deleting the object of a reserved row cannot unback a live row |
| `ArtifactStore.PutKeeps` | lib/services/generated-artifacts.ts:180-203 | a create-only put cannot unback a live row |
| `Chunking.ValidateOptions` | lib/documents/chunking.ts:113-133 | success exactly for integers with maxChars at least 100, an overlap of less than half of it and a positive chunk limit; the defaults 4000, 300 and 2000 are filled in |
| `Chunking.TrimSegment` | lib/documents/chunking.ts:64-76 | the longest subwindow without white space at its ends, or nothing if the window is blank |
| `Chunking.UnitAtTrims` | lib/documents/chunking.ts:64-105 | a window gives no unit exactly if it is blank, and otherwise the slice between its first and its last character that is not white space |
| `Chunking.LastSpace` | lib/documents/chunking.ts:95-95 | the last space at or before a position, or -1 |
| `Chunking.SplitBlock` | lib/documents/chunking.ts:78-111 | the loop ends; a window that ends before the text ends at the last space after the middle of its range, or after maxChars characters exactly if there is none; windows overlap by exactly overlapChars with strictly increasing ends; each unit is the exact trimmed slice at its offsets and at most maxChars long; every position that is not white space is covered |
| `Chunking.ChainedMonotone` | lib/documents/chunking.ts:106-108 | starts and ends of chained windows strictly increase, and the end of a window less the overlap is at least its start plus one, so the `start + 1` fallback never decides |
| `Chunking.ChainedCover` | lib/documents/chunking.ts:91-109 | chained windows that reach the end leave no position out |
| `Chunking.WindowsDetermined` | lib/documents/chunking.ts:90-109 | two complete chains of windows that end where the search ends are equal |
| `Chunking.SplitDetermined` | lib/documents/chunking.ts:78-111 | a block has one split, so the declaration says everything about the units of `splitBlock` |
| `Chunking.UnitIsDocumentSlice` | lib/documents/chunking.ts:99-104 | a unit of a block that is a document slice is itself the document slice at its offsets |
| `Chunking.SplitBlocks` | lib/documents/chunking.ts:154-156 | the units are the concatenated splits of the blocks, each with its complete chain of windows; they are exact slices, ordered, bounded and cover every block |
| `Chunking.DocumentSplitDetermined` | lib/documents/chunking.ts:154-156 | a document has one such unit sequence |
| `Chunking.GroupUnits` | lib/documents/chunking.ts:157-174 | the groups form a greedy partition: in order, non-empty, cohesive, within maxChars, and none could have taken the next unit; the running length equals the joined length |
| `Chunking.GreedyPartitionUnique` | lib/documents/chunking.ts:157-174 | at most one greedy partition of a unit sequence exists, so the loop computes the partition the declaration describes |
| `Chunking.ChunkStructure` | lib/documents/chunking.ts:135-141 | all units of a chunk share page and section, and a heading is always first |
| `Chunking.ChunkColumns` | lib/documents/chunking.ts:179-208 | each column of a chunk said of the first and last unit of its group and of the joined text, with the list its id is the digest of |
| `Chunking.AnchorColumns` | lib/documents/chunking.ts:209-230 | each column of an anchor said of its chunk and the input, with the list its id is the digest of |
| `Chunking.ChunksCover` | lib/documents/chunking.ts:179-212 | every position of a block that is not white space lies inside some chunk |
| `Chunking.ChunkExtraction` | lib/documents/chunking.ts:143-232 | the three failures and no others; chunks are the groups of the one split of the document, anchors match chunks one to one, each text is at most maxChars long, the document is covered |
| `ClientApi.FlagMeaning` | components/features/client-api.ts:53-53 | the in-place flag is set exactly when the latest maximal in-flight batch has an unknown outcome |
| `ClientApi.SharedKeyIff` | components/features/client-api.ts:43-58 | two requests of one scope carry the same key if and only if no batch in between ended with every outcome known |
| `ClientApi.NoReturn` | components/features/client-api.ts:48-52 | after a settled batch no later request returns to an older key |
| `ClientApi.KeysIdentifyScopes` | components/features/client-api.ts:47-47 | requests of different scopes never carry the same key |
| `ClientApi.SameScopeIff` | components/features/client-api.ts:26-47 | two requests that get generated keys share a scope if and only if method, endpoint and body text agree, where encoded parameters count as text and no body as the empty text |
| `ClientApi.RequestsShareKeyIff` | components/features/client-api.ts:26-58 | along every history, two requests carry the same generated key if and only if they are the same mutation and no batch of it settled in between; so different bodies never share a key |
| `ClientApi.ApiClient.Begin` | components/features/client-api.ts:46-56 | the entry is shared or fresh, `inFlight` equals the open requests that hold it, and the key rule is kept |
| `ClientApi.ApiClient.Enter` | components/features/client-api.ts:53-55 | counting one more request and entering it keeps the map in agreement with the history |
| `ClientApi.ApiClient.IdentityHolds` | components/features/client-api.ts:91-95 | the identity test before a deletion always succeeds |
| `ClientApi.ApiClient.Complete` | components/features/client-api.ts:85-99 | the end of a request keeps the map, the counts and the key rule in agreement with the longer history |
| `ClientApi.ApiClient.EntryIffUnsettled` | components/features/client-api.ts:88-97 | at every moment a scope has an entry exactly while its latest batch is open or has an unknown outcome, so an entry disappears exactly when the last open request ends with all outcomes known |
| `ClientApi.ApiClient.StartRequest` | components/features/client-api.ts:33-58 | a read, a request with its own key and a form change nothing; an unsupported body is refused before anything changes; every other mutation enters the history under its own method, endpoint and body text |
| `DurableWorker.CapacityHolds` | worker/durable-worker.ts:240-305 | with serial polls and completions anywhere, the capacity invariant holds in every reachable state |
| `DurableWorker.NeverOverCapacity` | worker/durable-worker.ts:240-305 | in every run with serial polls the active set never exceeds `concurrency`, and no job type exceeds its configured limit |
| `DurableWorker.NeverOverAsked` | worker/durable-worker.ts:199-305 | the same carried back to the constructor: no job type exceeds the number its last entry in `jobTypeConcurrency` asks for |
| `DurableWorker.StopAddsNothing` | worker/durable-worker.ts:333-359 | once `stopping` is set no execution is added, for overlapping polls too |
| `DurableWorker.StopDrains` | worker/durable-worker.ts:333-359 | when the first `stop()` has returned nothing is active, no poll is open and no lease is held |
| `DurableWorker.SoundStep` | worker/durable-worker.ts:227-359 | every event keeps capacity, lease and drain invariants together, provided no poll starts while another is open, and keeps the limits, adds nothing while stopping and leaves nothing when stopped |
| `DurableWorker.ClaimAfterStop` | worker/durable-worker.ts:283-286 | a job claimed while stopping is active at no point of any continuation, and the next step of its poll gives the lease back |
| `DurableWorker.OverlapExceeds` | worker/durable-worker.ts:227-281 | for every valid configuration with a handler there is a run from the start, with only two polls, that breaks a limit; its polls overlap |
| `DurableWorker.BothAsking` | worker/durable-worker.ts:258-281 | for every job type with room, the run that leads two polls to claim against the same free slots |
| `DurableWorker.ReadConfig` | worker/durable-worker.ts:199-210 | success exactly for registered, trimmed job types with limits 1 to 100; each limit is that of the last entry of its type, cut to the concurrency, and no other type has one |
| `DurableWorker.Worker.CountActive` | worker/durable-worker.ts:264-270 | the counts per job type of the active set |
| `DurableWorker.Worker.EligibleTypes` | worker/durable-worker.ts:271-275 | exactly the handler types whose active count is below their configured limit, or below `concurrency` if they have none |
| `DurableWorker.Worker.NextClaimStep` | worker/durable-worker.ts:263-281 | the loop condition and the next claim of a poll |
| `DurableWorker.Worker.RunOnce` | worker/durable-worker.ts:227-238 | the poll-start event, asked only with no poll open, keeps `Valid()` (capacity, leases, drain) and the promise of `SoundStep` |
| `DurableWorker.Worker.AfterRecovery` | worker/durable-worker.ts:254-262 | the event after recovery: no claim when stopping, without handlers or without capacity; `Valid()` and the promise are kept |
| `DurableWorker.Worker.AfterClaim` | worker/durable-worker.ts:283-302 | the event after a claim: release when stopping, otherwise run and ask again; `Valid()` and the promise are kept |
| `DurableWorker.Worker.AfterRelease` | worker/durable-worker.ts:284-286 | the lease is no longer held and the poll ends; `Valid()` and the promise are kept |
| `DurableWorker.Worker.AfterFailure` | worker/durable-worker.ts:227-238 | a poll that throws is removed; `Valid()` and the promise are kept |
| `DurableWorker.Worker.Settled` | worker/durable-worker.ts:298-300 | the `finally` of an execution frees its slot; `Valid()` and the promise are kept |
| `DurableWorker.Worker.Stop` | worker/durable-worker.ts:333-338 | only the first call starts the shutdown; `Valid()` and the promise are kept, so no execution is added from here on |
| `DurableWorker.Worker.ResumeStop` | worker/durable-worker.ts:339-359 | the three waits of the shutdown in order; once stopped nothing is active, open or held |
| `Budgets.Exceeded` | lib/budgets/index.ts:167-171 | the codes of exactly the exceeded limits, none twice |
| `Budgets.CheckRunBudget` | lib/budgets/index.ts:138-180 | the violations are exactly the exceeded limits and an unknown cost under a finite cap; allowed if and only if each of the nine amounts with its increment is within its limit and, for a request under a finite cap, the cost is known |
| `Budgets.CodesMean` | lib/budgets/index.ts:157-171 | which amount and limit each violation code stands for |
| `Budgets.FindPrice` | lib/budgets/index.ts:124-127 | the first matching price, or none exactly when no entry matches |
| `Budgets.EstimateProviderCost` | lib/budgets/index.ts:117-136 | a cost is given if and only if the model has a price and both token counts are known; it carries the status of the price, is not negative, and a million times it is each token count times its price |
| `Budgets.TotalsAddUp` | lib/services/run-stages.ts:256-280 | the totals of a run are its first totals plus the tokens, requests and known costs of its recorded calls |
| `Budgets.CostStatusIsWorst` | lib/services/run-stages.ts:256-280 | the cost status of a run that began empty is the worst of its recorded calls |
| `Budgets.RequestsWithinCap` | lib/budgets/index.ts:138-171 | over any sequence of attempts the recorded requests stay within the cap |
| `Budgets.FrozenOnceOver` | lib/budgets/index.ts:138-180 | once a total is over its limit nothing more is recorded |
| `Budgets.OvershootIsOneCall` | lib/budgets/index.ts:138-180 | at every moment the totals are within the limits, or are what one last call made of totals within the limits |
| `PipelineHandler.InOrderAt` | worker/research-pipeline-handler.ts:461-754 | a disciplined history is in order at every one of its events, not only at the last |
| `PipelineHandler.CallsInOrder` | worker/research-pipeline-handler.ts:392-768 | what precedes each call of a disciplined history, position by position: the provider is called once, for a started execution and under the permit; a finish follows the call and a record the finish, each once; a granted permit is given back once and before a commit; a commit after a call follows a SUCCEEDED finish that was no duplicate, its recorded output and the judgement that allows it; once a store call has thrown, only the permit is released and the stage perhaps blocked |
| `PipelineHandler.BudgetIff` | worker/research-pipeline-handler.ts:180-204 | the frozen budget is usable if and only if its cost limit is finite, where the older name counts only without the newer one |
| `PipelineHandler.StageRun.Do` | worker/research-pipeline-handler.ts:392-768 | a call that is in order extends a disciplined history, whether it returns or throws, and changes the stage row only if it takes effect; a stage that is blocked or done cannot be started |
| `PipelineHandler.StageRun.FailTerminal` | worker/research-pipeline-handler.ts:342-362 | when the stores return, the stage is blocked exactly for an exhausted budget, whatever the number of attempts; no count changes |
| `PipelineHandler.StageRun.RecordAttempt` | lib/services/run-stages.ts:256-280 | the run is charged exactly once if the record took effect |
| `PipelineHandler.StageRun.CloseFailed` | worker/research-pipeline-handler.ts:593-684 | a failed execution gets one finish with the given status and, if the stores return, one record and the error of its class |
| `PipelineHandler.StageRun.TryCall` | worker/research-pipeline-handler.ts:488-524 | the provider is called exactly for a started execution, under the permit; an execution is started only right after the fence held and before the signal fires; the cause is the error of the call that failed |
| `PipelineHandler.StageRun.AfterFailedCall` | worker/research-pipeline-handler.ts:525-568 | a started execution is finished as FAILED, TIMED_OUT or CANCELLED and recorded, one that was not started is not; the error has the class of the abort reason or of what was thrown, and of a network error otherwise |
| `PipelineHandler.StageRun.CallProvider` | worker/research-pipeline-handler.ts:488-574 | the permit is released exactly once on every path, also when the catch throws; a failing release fails the attempt |
| `PipelineHandler.StageRun.CommitOutput` | worker/research-pipeline-handler.ts:364-390 | one commit, attempted only when it is in order, and then the advance; a success has made both |
| `PipelineHandler.StageRun.BlockForBudget` | worker/research-pipeline-handler.ts:327-340 | the stage is blocked and the budget error thrown, or the error of the call that should block it |
| `PipelineHandler.StageRun.Settle` | worker/research-pipeline-handler.ts:581-738 | after an answer: one finish with the status of the answer, one record, and a commit only for an accepted answer; when the stores return it ends as `Verdict` says, with the stage blocked exactly for an exhausted budget; a recorded output stays on the row |
| `PipelineHandler.StageRun.FinishValid` | worker/research-pipeline-handler.ts:581-738 | a valid answer is finished as SUCCEEDED and recorded once, with its output unless the finish was a duplicate |
| `PipelineHandler.StageRun.JudgeAndCommit` | worker/research-pipeline-handler.ts:739-754 | a commit is made if and only if the postflight allows it; when the stores return the stage has succeeded, or is blocked with the budget error |
| `PipelineHandler.StageRun.RunCall` | worker/research-pipeline-handler.ts:451-754 | a call is charged only after its preflight; refused permits and budgets make no call |
| `PipelineHandler.StageRun.Guarded` | worker/research-pipeline-handler.ts:437-754 | an output left on the row is committed without a call, a stage that cannot be started makes no call, a budget without a finite cost limit is refused |
| `PipelineHandler.StageRun.CatchBlocked` | worker/research-pipeline-handler.ts:755-767 | a blocked stage is marked and keeps the discipline |
| `PipelineHandler.StageRun.Handle` | worker/research-pipeline-handler.ts:392-768 | on every path, whatever fails and whenever the signal fires: the history is disciplined, accounts for the row, and the permit is back; no execution is started after the signal; a store call that threw fails the attempt with its error, and a success ends with the stage advanced. The totals change exactly if the record took effect: by one request, and for a call that was answered by exactly the reported tokens and their price. When the store calls return, each started execution has one finish and one record, and the result, the status of the execution and of the stage are those of `Ends`. A fresh output is committed only under the declared condition, one left on the row only from a startable stage, and without faults exactly then |
| `PipelineHandler.DeclinedRetriedIff` | worker/research-pipeline-handler.ts:239-290 | without a classification of its own a declined answer is retried exactly for a rate limit, a server error, a timeout or a provider error, and a rejected one never; which code gives which class and which status |
| `PipelineHandler.ChargeAccounts` | worker/research-pipeline-handler.ts:581-592 | a recorded answer adds one request, each reported token count (a missing one adds 0) and, if both counts and the price are known, exactly price times count, and otherwise no cost; a call without an answer adds its request alone |
| `PipelineHandler.PreflightIff` | worker/research-pipeline-handler.ts:451-459 | the preflight allows a call if and only if one more request is within its limit, no other total has passed its own and, under a finite cost limit, the model has a price |
| `PipelineHandler.PostflightIff` | worker/research-pipeline-handler.ts:739-753 | the postflight allows the commit if and only if the totals would stay within the budget with the usage of the answer, whose cost is known |
| `PipelineHandler.HandleAll` | worker/research-pipeline-handler.ts:392-768 | attempts made one after the other on any stages of one run, each on the row of its own stage and all charged to the one run: the requests stay within the cap, any other overshoot is the work of one call, a stage that is blocked or done stays so and is charged nothing, and each row is what the histories of the attempts on its stage make of it, one on top of the other |
| `PipelineHandler.BlockedIff` | worker/research-pipeline-handler.ts:327-362 | a history without a commit leaves the stage blocked if and only if it was, or a call that blocks it took effect |
| `PipelineHandler.Retry` | worker/research-pipeline-handler.ts:437-445 | of two attempts, an output the first left on the row without trying to commit it is committed by a second one without faults, with no call and no postflight, if and only if no call that blocks the stage took effect in the first; where only that call may fail, a refused postflight leaves its output behind |
| `PipelineHandler.RefusedYetCommitted` | worker/research-pipeline-handler.ts:739-754 | under every budget with a finite cost limit that allows one more call: an attempt whose postflight is refused and whose blocking call fails, and the retry that commits its output |
| `RateWindows.SlidingBound` | lib/http.ts:204-228 | windows spaced by their length, each with at most `limit` events after its start, give at most `2 * limit - 1` events in any half-open interval of that length |
| `RateWindows.PacedBound` | lib/auth/rate-limit.ts:51-85 | if moreover the events of a window from the `free`-th on keep a distance, an interval of one window holds at most two times `free` and one event for each distance that fits between |
| `HttpRateLimit.AdmissionWindows` | lib/http.ts:204-228 | the admissions of a key fall into windows at least windowMs apart with at most `limit` admissions each |
| `HttpRateLimit.SlidingWindowBound` | lib/http.ts:204-228 | any half-open interval of length windowMs admits at most `2 * limit - 1` requests of a key |
| `HttpRateLimit.BoundIsReached` | lib/http.ts:214-227 | a concrete sequence reaches `2 * limit - 1` |
| `HttpRateLimit.KeysIndependent` | lib/http.ts:210-213 | what is admitted for a key does not depend on the requests of other keys |
| `HttpRateLimit.RateLimiter.Enforce` | lib/http.ts:202-228 | the in-place bucket map follows the decision function; an admitted call is recorded, a refused one changes nothing |
| `LoginRateLimit.RetryAfterSeconds` | lib/auth/rate-limit.ts:62-68 | a wait is given exactly while the block lasts, at least one second, rounded up to whole seconds |
| `LoginRateLimit.FailureKeepsRule` | lib/auth/rate-limit.ts:70-85 | a block is set from the maximum on, and each further failure had to wait for the last block |
| `LoginRateLimit.FailureWindows` | lib/services/auth.ts:315-356 | the failures of any attempt sequence fall into windows at least windowMs apart with at most maximumAttempts + floor((windowMs - 1) / blockMs) each, those from the maximum on at least blockMs after the one before |
| `LoginRateLimit.FailureBound` | lib/services/auth.ts:315-356 | any half-open interval of one window holds at most 2 maximumAttempts + floor((windowMs - 2) / blockMs) failures, and one fewer if the row was created by the first attempt |
| `LoginRateLimit.WindowBoundReached` | lib/auth/rate-limit.ts:51-85 | for every valid configuration a sequence of failures that reaches the bound of one window |
| `LoginRateLimit.SlidingLimitReached` | lib/auth/rate-limit.ts:51-85 | for every valid configuration sequences that reach the two bounds of an interval |
| `LoginRateLimit.LetThroughIff` | lib/services/auth.ts:315-356 | an attempt is let through if and only if its window has rolled over or no block is running |
| `LoginRateLimit.BlockLastsIff` | lib/auth/rate-limit.ts:51-85 | a failure that sets a block sets it for blockMs, and every sequence of attempts during it is refused throughout if and only if the block ends no later than the window |
| `LoginRateLimit.BlockEndsWithWindow` | lib/auth/rate-limit.ts:51-85 | for every valid configuration: the attempts after which a block runs into the future, and the attempt at the end of the window that is let through all the same |
| `Csv.ReadEscapedBack` | lib/export/render.ts:138-149 | a quoted cell is read back whole, for every string and whatever follows |
| `Csv.GuardIff` | lib/export/render.ts:138-149 | an apostrophe is put before a text if and only if it begins, after tabs, returns and spaces, with one of the four characters of a formula |
| `Csv.ReadBack` | lib/export/render.ts:138-181 | a reader of section 2 of RFC 4180 recovers exactly the matrix of guarded cell texts |
| `Csv.SourcesReadBack` | lib/export/render.ts:151-181 | the sources file reads back as its header and one record per source |
| `Csv.SourceColumns` | lib/export/render.ts:151-181 | which value stands in which of the eleven columns of a source |
| `Csv.EvidenceColumns` | lib/export/render.ts:203-242 | which value stands in which of the fifteen columns of a claim and its evidence |
| `Csv.BareColumns` | lib/export/render.ts:203-242 | a claim without evidence has empty evidence columns |
| `Csv.ClaimRowsAre` | lib/export/render.ts:203-242 | one row for each evidence of a claim in order, or its bare row |
| `Csv.LedgerShape` | lib/export/render.ts:183-244 | the ledger has 1 + sum of max(1, evidence count) rows of 15 columns |
| `Csv.RenderLedger` | lib/export/render.ts:183-245 | the row-pushing loops render exactly the ledger rows |
| `Csv.LedgerReadBack` | lib/export/render.ts:183-245 | the rendered ledger reads back as the guarded texts of its rows |
| `Html.PassesAreOneSubstitution` | lib/export/render.ts:70-77 | the five sequential replacements equal one substitution per character |
| `Html.DecodeInverts` | lib/export/render.ts:70-77 | decoding the escaped text gives back the text |
| `Html.NoBareMarkup` | lib/export/render.ts:70-77 | the escaped text contains no `<`, `>` or quote, and every `&` in it begins one of the five entities |
| `Research.AgingFrom` | lib/domain/research.ts:79-84 | the aging threshold is four fifths of the maximum age, rounded up |
| `Research.AssessFreshness` | lib/domain/research.ts:57-86 | fails exactly for a negative maximum age or an unusable date; OUTDATED exactly above the maximum age, AGING exactly from four fifths of it on, UNKNOWN exactly without a date or for a future one |
| `Research.ClaimSupport` | lib/domain/research.ts:111-142 | each of the six statuses characterised by the verified supporting and refuting evidence |
| `Research.FullAndUsableIff` | lib/domain/research.ts:117-142 | an assessment counts in full exactly if its extent is full or not given and its source is neither outdated nor of unknown age |
| `Research.CitationIdIff` | lib/domain/research.ts:152-156 | a citation id has 1 to 128 letters, digits, dots, colons, hyphens or underscores and begins with a letter or digit |
| `Research.FindCitationIdIssues` | lib/domain/research.ts:158-187 | the loop reports for each position exactly its malformed, duplicate and unknown issues |
| `Research.NoIssuesIff` | lib/domain/research.ts:158-187 | nothing is reported if and only if the citations are well formed, known and pairwise distinct |
| `Qa.GroupLinks` | lib/domain/qa.ts:182-188 | the links of each claim, in order |
| `Qa.BackedByIndex` | lib/domain/qa.ts:178-205 | the lookup tables decide exactly whether some link of the claim is verified through existing evidence and source |
| `Qa.Assess` | lib/domain/qa.ts:192-208 | the assessments of a claim count for a relationship exactly when some resolving link does; an unusable date ends the run |
| `Qa.CheckClaims` | lib/domain/qa.ts:190-236 | unsourced key claims are reported exactly, and the support map is CONTESTED exactly for contested ids |
| `Qa.ContestedNext` | lib/domain/qa.ts:209-213 | how a further claim with the same id replaces the status |
| `QaSources.CheckOutdated` | lib/domain/qa.ts:259-280 | exactly the outdated cited sources, in citation order |
| `QaSources.CheckMarked` | lib/domain/qa.ts:282-297 | exactly the marked sources |
| `QaSources.CheckHashes` | lib/domain/qa.ts:299-321 | a repeated non-blank trimmed hash is reported once per id that is not marked |
| `QaSources.DuplicateExactlyOnce` | lib/domain/qa.ts:282-321 | with unique ids a source is reported exactly once if it is marked or repeats an earlier hash, and otherwise never |
| `QaSources.CountPublishers` | lib/domain/qa.ts:327-331 | the publishers in first-seen order with their exact counts |
| `QaSources.CheckConcentration` | lib/domain/qa.ts:323-347 | exactly the publishers with more than half of at least three cited sources |
| `QaSources.AtMostOneConcentration` | lib/domain/qa.ts:332-346 | at most one publisher is reported, and one is if and only if a majority publisher exists |
| `QaApproval.CheckConflicts` | lib/domain/qa.ts:349-368 | the unresolved conflicts, and which claims have a recorded conflict |
| `QaApproval.CheckContested` | lib/domain/qa.ts:370-387 | the contested claims without a recorded conflict |
| `QaApproval.CheckStatements` | lib/domain/qa.ts:389-414 | mixed and out-of-scope statements |
| `QaApproval.CheckQuantities` | lib/domain/qa.ts:416-462 | numbers without verified evidence, date or unit mismatches, value mismatches |
| `QaApproval.CheckUnreferenced` | lib/domain/qa.ts:464-477 | the sources no citation names |
| `QaApproval.CheckGaps` | lib/domain/qa.ts:479-493 | the open research gaps |
| `QaApproval.CheckSections` | lib/domain/qa.ts:495-508 | the blank required sections |
| `QaApproval.RunQaRules` | lib/domain/qa.ts:176-511 | the run fails exactly when a source it looks at has no usable date, and otherwise returns the declared findings in order |
| `QaApproval.ApprovalIff` | lib/domain/qa.ts:513-523 | approval is allowed if and only if every included CRITICAL or HIGH claim has verified support, citations are good, conflicts are resolved, contested claims are recorded, numbers are backed and match, no gap is open and no required section is blank |
| `QaApproval.RunReportsDuplicatesOnce` | lib/domain/qa.ts:282-321 | in the whole run a source is reported as a duplicate exactly once or never |
| `QaMeaning.FindingsIff` | lib/domain/qa.ts:176-511 | for each of the rules, a finding is reported if and only if the rule speaks of its subject, said of the claims, evidence, sources, quantities and sections themselves, with the severity of the rule and an open resolution |
| `Metrics.Ratio` | lib/evaluation/metrics.ts:50-52 | a share times its whole is the part; of parts no greater than the whole it is at most 1, and 1 exactly when it is all |
| `Metrics.Recall` | lib/evaluation/metrics.ts:54-57 | 1 exactly when everything expected was found |
| `Metrics.SetAgreement` | lib/evaluation/metrics.ts:59-69 | the common share of the union: at most 1, and 1 exactly when the two sets are equal |
| `Metrics.FullAverage` | lib/evaluation/metrics.ts:390-394 | an average of scores of at most 1 reaches 1 only if there are scores and each is 1 |
| `Metrics.FullRate` | lib/evaluation/metrics.ts:219-388 | each rate except coverage is at most 1, and 1 exactly under its declared meaning: citations own and reportable, claims supported, stale, gap and conflict-signature sets equal to gold, blockers found, sections written, stages, requests and status as expected |
| `Metrics.CoverageMeaning` | lib/evaluation/metrics.ts:219-388 | the evidence coverage times the number of evidence records is the number of distinct records some claim link uses, and 1 without records |
| `Metrics.NoneTally` | lib/evaluation/metrics.ts:219-388 | each count is 0 exactly under its declared meaning |
| `Metrics.CountBypasses` | lib/evaluation/metrics.ts:281-298 | the loop counts the distinct injected sources that were bypassed |
| `Metrics.EvaluateFixture` | lib/evaluation/metrics.ts:219-388 | fails exactly on a mismatched fixture id, and otherwise returns the declared scores |
| `Metrics.DistinctSize` | lib/evaluation/metrics.ts:408-421 | the set of ids has the size of the list exactly when the ids are distinct |
| `Metrics.CheckThresholds` | lib/evaluation/metrics.ts:496-529 | no failure is pushed exactly when every average reaches its threshold and every total is 0 |
| `Metrics.GateMeaning` | lib/evaluation/metrics.ts:431-529 | the thresholds hold exactly when there are fixtures, every single one is perfect and the average coverage is at least 0.9 |
| `Metrics.EvaluateCorpus` | lib/evaluation/metrics.ts:396-578 | fails exactly when executions and labels do not match one to one; passes exactly when the corpus is non-empty, every fixture is perfect and coverage averages at least 0.9 |
| `Cidr.AndMask` | lib/security/url.ts:127-128 | keeping the high bits clears exactly the remainder |
| `Cidr.Mask32Value` | lib/security/url.ts:127-127 | the shifted 32-bit mask as a number |
| `Cidr.MaskIsInterval` | lib/security/url.ts:123-129 | the 32-bit mask test is interval membership for every address, network and prefix |
| `Cidr.ShiftIsInterval` | lib/security/url.ts:195-201 | the 128-bit shift test is interval membership for every address, network and prefix |
| `Cidr.Public4IsComplement` | lib/security/url.ts:131-153 | a 32-bit value is public exactly when it is in none of the fifteen listed ranges |
| `Ipv6Text.Ipv4Number` | lib/security/url.ts:117-121 | the value of a dotted quad is below 2^32 |
| `Ipv6Text.ParsedBound` | lib/security/url.ts:155-193 | a parsed address is below 2^128 |
| `Ipv6Text.FullForm` | lib/security/url.ts:175-192 | eight groups in either case have the positional value (section 2.2 of RFC 4291, form 1) |
| `Ipv6Text.CaseDoesNotMatter` | lib/security/url.ts:155-193 | texts that differ only in the case of letters denote the same address |
| `Ipv6Text.CompressedForm` | lib/security/url.ts:175-192 | `::` stands for the missing zero groups (form 2) |
| `Ipv6Text.QuadIsTwoGroups` | lib/security/url.ts:163-173 | a dotted quad at the end is read exactly as the two groups it stands for |
| `Ipv6Text.FullWithQuad` | lib/security/url.ts:163-192 | six groups and a dotted quad have the value of the groups followed by the 32 bits of the quad (form 3) |
| `Ipv6Text.CompressedWithQuad` | lib/security/url.ts:163-192 | the same for a compressed address |
| `Addresses.FirstOfNetwork` | lib/security/url.ts:203-219 | each blocked IPv6 network text denotes the first address of its range |
| `Addresses.Public6IsComplement` | lib/security/url.ts:203-223 | a 128-bit value is public exactly when it is in none of the thirteen listed ranges |
| `Addresses.PublicMeaning` | lib/security/url.ts:225-234 | an address text is public exactly when its family's value lies outside every listed range |
| `SafeFetch.ValidateUrl` | lib/security/url.ts:236-271 | success exactly for http or https, no credentials, a named host that is not local and no address that is not public; only the fragment is dropped |
| `SafeFetch.HostnameForms` | lib/security/url.ts:109-115 | brackets around a host name, one dot after it and the case of its letters make no difference |
| `SafeFetch.LocalIff` | lib/security/url.ts:254-261 | the local names: `localhost`, `localhost.localdomain` and everything below one of them |
| `SafeFetch.CheckRecords` | lib/security/url.ts:296-321 | success exactly when there are records and all are valid and public; the result is those records, each once |
| `SafeFetch.Resolve` | lib/security/url.ts:285-324 | a resolved target is external and has a non-empty, duplicate-free list of public addresses |
| `SafeFetch.Judge` | lib/security/url.ts:558-602 | a redirect is followed if and only if it is within the limit, to an external URL the library produced, and not from https to http; an arrival is exactly a 2xx of an allowed type |
| `SafeFetch.Client.Visit` | lib/security/url.ts:506-556 | one hop sends at most one request and keeps all requests safe |
| `SafeFetch.Client.AskHop` | lib/security/url.ts:464-556 | a hop gets its response if and only if its URL resolves to usable addresses and the server answers within the time and size limits; one request is sent for an answered hop, and at most one otherwise |
| `SafeFetch.Client.Follow` | lib/security/url.ts:491-635 | the redirect loop succeeds if and only if there is a chain of distinct URLs within the limit, each answered and pointing to the next, the last one arriving |
| `SafeFetch.Client.Fetch` | lib/security/url.ts:464-635 | success if and only if the options are in range, the URL is external and such a chain begins at it; always at most maxRedirects + 1 requests, all safe; a result has redirectCount + 1 hops, one per request, and only the last is no redirect |
| `SafeFetch.HopsOfResult` | lib/security/url.ts:491-556 | the hops of a result are pairwise distinct and pinned to public addresses |
| `SafeFetch.SameUrl` | lib/security/url.ts:507-510 | validating the serialised form of an external URL the library produced gives the same URL |
| `SafeFetch.NormalisingLibraryIsFaithful` | lib/security/url.ts:236-245 | the assumption on the URL library is met by one that lower-cases what it reads |
| `StableJson.SortSorts` | lib/providers/ai-shared.ts:10-10 | the stable sort puts members in key order |
| `StableJson.SortedDetermined` | lib/providers/ai-shared.ts:8-13 | a sorted list with distinct keys, none of which tie, is determined by its elements |
| `StableJson.StableIff` | lib/providers/ai-shared.ts:4-16 | for any total preorder on keys, a tree without tied keys has the form of another tree if and only if the two are equal up to member order at every depth |
| `StableJson.EqualFormsAreSame` | lib/providers/ai-shared.ts:4-16 | equal forms always mean trees that are equal up to member order, ties or not |
| `StableJson.SortIsStable` | lib/providers/ai-shared.ts:10-10 | the sort keeps the order of members whose keys tie |
| `StableJson.Disturb` | lib/providers/ai-shared.ts:4-16 | a tie anywhere in a tree gives an equal tree with another form |
| `StableJson.OneFormIff` | lib/providers/ai-shared.ts:4-16 | for any total preorder, a tree has one form if and only if it has no tie |
| `StableJson.Idempotent` | lib/providers/ai-shared.ts:4-16 | the stable form of a stable form is itself, for any total preorder |
| `StableJson.CanonicalIff` | lib/providers/ai-shared.ts:4-20 | all trees have one form if and only if no two different keys compare as equal |
| `SourceRefs.Collector.Visit` | lib/providers/ai-shared.ts:26-63 | the recursive traversal pushes exactly the listed ids, in order |
| `SourceRefs.ListedIffRefers` | lib/providers/ai-shared.ts:26-63 | an id is listed if and only if the tree refers to it in prose, in an id list or in a `sourceId` member |
| `SourceRefs.UnknownSourceIds` | lib/providers/ai-shared.ts:65-71 | each reference that is not allowed, once; empty if and only if every reference is allowed |
| `SourceRefs.AcceptDraft` | lib/providers/ai-shared.ts:83-100 | a draft is accepted if and only if it cites exactly its declared sources |
| `Sessions.StepKeeps` | lib/services/auth.ts:189-641 | every committed transaction keeps: each unrevoked session was issued under its operator's current password version, tokens and names are unique, sessions belong to operators |
| `Sessions.Reachable` | lib/services/auth.ts:189-641 | the invariant holds in every reachable state |
| `Sessions.RunLater` | lib/services/auth.ts:189-641 | along any run rows persist, revocation is final and versions never decrease |
| `Sessions.DeadForever` | lib/services/auth.ts:221-239 | once a session is revoked or expired its token opens nothing again, under any row |
| `Sessions.NoChangeSince` | lib/services/auth.ts:221-239 | a token that opens a session proves that the password has not changed since the session existed |
| `Sessions.OnlyTheReplacement` | lib/services/auth.ts:565-577 | right after a password change the replacement is the operator's only unrevoked session, and other operators' sessions are untouched |
| `Sessions.AuthDatabase.InsertSession` | lib/services/auth.ts:189-219 | a session is inserted exactly when its id and its token are new, under the operator's version at that moment |
| `Sessions.CanInsertIff` | lib/services/auth.ts:189-219 | a session row can be inserted if and only if no other row has its id or the hash of its token |
| `Sessions.AuthDatabase.RequireMutationSession` | lib/services/auth.ts:241-258 | exactly which error, or the one live row whose CSRF token matches |
| `Sessions.AuthDatabase.CreateOperator` | lib/services/auth.ts:260-292 | success exactly for a new name; nothing changes otherwise |
| `Sessions.AuthDatabase.OpenSession` | lib/services/auth.ts:357-384 | a successful login rehashes if needed, clears the rate row and opens a session, or rolls everything back |
| `Sessions.AuthDatabase.Login` | lib/services/auth.ts:305-387 | the four outcomes decided by the rate limiter, the password and the uniqueness of the token, with the exact new rate rows |
| `Sessions.RateKeysDiffer` | lib/services/auth.ts:139-141 | with a hash that tells texts apart, two user names share a row of the login limiter only if they are the same |
| `Sessions.FirstFailure` | lib/services/auth.ts:305-356 | a first failed login under an unknown key opens a window with one failure and no block |
| `Sessions.AuthDatabase.Logout` | lib/services/auth.ts:503-523 | exactly the caller's session is revoked |
| `Sessions.AuthDatabase.RevokeSession` | lib/services/auth.ts:612-641 | only a live session of the caller's own operator can be revoked, and nothing else changes |
| `Sessions.AuthDatabase.ReplaceSessions` | lib/services/auth.ts:563-577 | version up, all sessions of the operator revoked, one replacement, or nothing at all |
| `Sessions.AuthDatabase.ChangePassword` | lib/services/auth.ts:539-593 | the outcome decided by the two password checks and the uniqueness of the token, and the new state |
| `Migrations.CompareMatches` | lib/operations/migration-inventory.ts:41-69 | the inventories match exactly when the table holds every local migration with its checksum and no other |
| `Migrations.RunMatchesIff` | scripts/migrate.ts:35-66 | after a run that can complete the inventories match if and only if no row carried an empty checksum |
| `Migrations.EmptyChecksumStays` | scripts/migrate.ts:41-49 | the row that shows the difference |
| `Migrations.Resume` | scripts/migrate.ts:35-66 | an interrupted run and a later one together leave the table of one full run and execute each pending migration exactly once, in order |
| `Migrations.SecondRunIsNoOp` | scripts/migrate.ts:35-66 | a second run changes nothing and executes nothing |
| `Migrations.StillRunnable` | scripts/migrate.ts:20-50 | a table left by an interrupted run can be run again whenever the first could |
| `Migrations.Database.MigrateOne` | scripts/migrate.ts:36-65 | one pass: the checksum test, the filled-in row, or the script with its row, all or nothing |
| `Migrations.Database.Migrate` | scripts/migrate.ts:20-66 | the table is that of the first k migrations and the committed scripts are exactly the pending ones among them; success means all of them and a runnable table; a refusal means it was not runnable |

## Left out

- React components, pages and forms, SQL text, provider HTTP clients, object-storage, ClamAV, DNS and undici plumbing, PDF, DOCX and ZIP generation: no logic of their own to prove here.
- Transition tables of jobs, runs and documents: small finite tables, easy members.
- Prompt-injection and secret-scan patterns: heuristics without a specification.
- `components/auth/auth-client.ts`: the same machine as `ClientApi`.
- ArtifactStore: the calls are steps on values of both stores, not methods on a heap, because the claims are about their interleavings; the reason text of a discard, the orphan-cleanup worker and the placing of legal holds are not steps.
- ArtifactStore.CrashThenRetry: covers a crash of the process; a storage request still in flight after its process has died is not modelled.
- Chunking: block ids, security signals and `markSupersededAnchors` carry no claim; blocks are assumed ordered and disjoint, each text the document slice at its offsets.
- ClientApi: `crypto.randomUUID()` is assumed to return a key never used before, and the method arrives in upper case.
- DurableWorker: `claimJobs` is assumed never to return a job the worker already holds; timers, heartbeats and the body of `execute` are only "an execution may settle at any time".
- PipelineHandler: building the stage input, choosing a provider and the orchestration after a commit are parameters or single calls; the totals of a run are charged by one attempt at a time.
- Budgets: negative or fractional counts are not represented, and reading the price list from JSON is not modelled.
- HttpRateLimit: the client key is the string the caller computed; the limit and window are fixed for a limiter.
- Sessions: one clock reading per transaction; audit events, `last_seen_at`, display names and the format checks of names and passwords are not represented; a disabled operator stays disabled.
- Csv.RenderLedger: a value that is neither text, missing nor boolean does not occur in the exported rows and is not represented.
- Html: `String(value ?? "")` is applied before; the model starts from the string.
- Research.AssessFreshness: whether a text is a calendar day is a parameter.
- Qa: the location, problem, remediation and metadata texts of a finding are not represented, and neither is which of two date errors is thrown first.
- Metrics: source diversity, tokens, costs, the accuracy score and the texts of failures take no part in the gate and are not represented; the observation digest and the conflict signature are parameters; object properties of reports are listed pairs.
- Metrics.GateMeaning: the evidence coverage of a single fixture is not bounded by 1, so only its average is stated.
- Migrations: the order of unexpected names and the script of the DDL are not represented; the advisory lock makes runs exclusive.
- SafeFetch.Client.Fetch: parsing, resolving and serialising URLs are parameters, with the assumption that an external URL which the library itself parsed or joined parses back to itself once serialised; body decoding and sanitising are not represented; header names arrive in lower case.
- Addresses: which texts `isIP` calls version 6 is a parameter.
- SourceRefs: the citation pattern is a parameter, and the schema check of a stage output precedes `AcceptDraft`.
- StableJson: an object that lists index-like keys first enumerates in an order of its own, which is one of the key orders the lemmas range over; numbers are exact.
