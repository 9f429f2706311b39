# A verified model of the reconciliation control plane

The control plane keeps several pieces of state in step: provider snapshots and the operations planned between them,
CrowdSec bans and Cloudflare access rules, an allowlist registry and its spokes, escalation state files, and the cursor
of a replayed event stream. This project models the parts of it whose correctness spans several functions or whole
runs, one Dafny module per component:

| module | component | main results |
|---|---|---|
| `CanonicalJson` | canonical JSON printer | decodable, injective, self-delimiting, independent of map order |
| `SnapshotModel` | snapshot builder | normalisation is idempotent; contents and hashes do not depend on input order |
| `Planner` | planner and drift validator | plans converge, are minimal, ordered and deterministic; every step passes drift validation |
| `IdempotencyKeys` | idempotency keys of operations | the hashed text identifies the operation |
| `Executor` | governed executor | gate safety, the exact set of invoked mutators, every operation's fate, journal and evidence |
| `Fencing` | lease fencing | token order of validations and executions, refusal of superseded leases, over all interleavings |
| `Convergence` | planner and executor together | a batch that stops halfway leaves exactly the rest to plan; failing batches converge |
| `WafReplay` | WAF replay cursor and its query | which events every run fetches and which it loses for good; cursor monotonicity |
| `BanSync` | ban sync loop, allowlist index, cleanup | convergence with a measure, partial failure, exclusion and foreign rules over runs |
| `CidrBan`, `Recidive` | escalation services | spacing, age and counting over all runs; the escalation language |
| `TrustedNetworks` | hub-and-spoke registry | additive, independent, settling spokes |
| `Shadow`, `DriftClassifier` | shadow comparison, metrics, store, classifier | statistics that add up; pruning is invisible; eligibility |
| `Backoff` | HTTP and quota backoff | 64-bit bounds, exact deviation from the documented delay, spacing of checks |
| `Orders` | Go's string order, `sort.Slice`, appending loops | uniqueness of sorts, permutation lemmas |

## How the model reads

* Each imperative operation is a method proved against a specification function or predicate; what the system promises
  is proved of that specification, over all inputs, all runs, or all interleavings.
* Everything outside the program (provider calls, the clock, file operations, SHA-256, `net.ParseIP`, shields, guards)
  is a parameter: a value of what it answered, or a function about which nothing is assumed. "For every run" is then
  "for every sequence of answers".
* Times are integers in nanoseconds; 0 is Go's zero time. Percentages are exact reals. Durations that can overflow are
  64-bit (`Backoff.Duration`, or explicit two's complement wrap-around).
* Go compares strings by UTF-8 bytes, which on valid UTF-8 is the order of code points, Dafny's order on `char`.
* Map iteration and unstable sorting are modelled by arbitrary choice and by "any sorted permutation".
* A text or constant of the system that a result depends on stands in the result itself, spelt out, so that no result
  rests on the model's own names for it.
* Every lemma carries `{:induction false}`, so that each induction is written out in a body.

## Where the code and its intent part

Each of these is kept as the code has it, with a lemma for the exact boundary.

* The executor discards journal errors: the journal holds of the records appended exactly those whose append succeeded
  (`Executor.StoredJournal`), and a mutator may run without a stored "executing" record (`Executor.ExecutingRecordHeld`,
  `Executor.UnjournalledMutation`).
* The planner and the governed executor are not wired together: `ExecuteBatch` has no caller outside tests,
  `runPlanningStage` passes an empty target (internal/orchestrator/pipeline/stage_planning.go:13), and execution goes through
  the rollback executor. `Convergence` states what the two guarantee when a plan is handed to the executor.
* The executor does not call the drift validator (internal/execution/executor.go:273-274); `Planner.EveryStepPassesDrift`
  shows that a planned batch would pass it at every step.
* Fencing orders validations. Executions are in order when each happens before the next acquisition for its slot, and from
  any state with a pending older grant they can be put out of order (`Fencing.PromptExecutionIsInOrder`,
  `Fencing.LateExecutionCanBeOutOfOrder`, `Fencing.ExecutionOrderCanDecrease`).
* The WAF replay query asks for the newest 50 events strictly between two whole seconds
  (internal/cloudflare/client/client.go:33, internal/cloudflare/discovery/discovery.go:111-118), while the cursor moves to
  the newest. An event with 50 newer ones ahead of it at the first query that could name it is lost for good. A timely event
  that became visible after the last cold start and shares its time with no other is fetched in every other case
  (`WafReplay.FateIsSealed`, `WafReplay.NoMissedEvents`, `WafReplay.LostForGood`, `WafReplay.BurstLosesAnEvent`).
* A WAF replay start without a saved cursor sees only the polling interval plus the overlap, and after a failed cursor load
  the saved cursor moves back exactly when the newest event is newer than the cold-start cursor and older than the saved one
  (`WafReplay.ColdStartWindow`, `WafReplay.FailedLoadMovesBackExactly`, `WafReplay.FailedLoadCanMoveCursorBack`).
* The recidive service documents a purge of old entries; none happens, and records only accumulate
  (`Recidive.NothingIsPurged`, `Recidive.RecordsNeverShrink`, `Recidive.OverdueExactly`, `Recidive.OverdueRecordIsKept`).
  Without a cursor it starts counting only when a ban is stamped in the future (`Recidive.BootstrapNeedsTheFuture`,
  `Recidive.NeverBootstraps`).
* A failed save makes the escalation services repeat themselves, and only a failed save does
  (`CidrBan.AddedAgainExactly`, `Recidive.LostSaveRecounts`).
* `AuthOK` is documented as "the list call succeeded"; a failed push clears it too (`TrustedNetworks.AuthOkExactly`,
  `TrustedNetworks.FailedPushClearsAuthOk`).
* Seven-day eligibility is meant to hold once a week of data exists; on the report path it holds only if the read clock
  equals the stamp of the current record and another record is exactly one week old (`Shadow.EligibleOnlyOnTheDot`).
* Two drift classes are declared but never reported (`DriftClassifier.ClassesThatOccur`). A "protected" drift, documented as
  always a bug, is reported exactly for an address protected by now whose rule drifted in some cycle
  (`DriftClassifier.ProtectedMeansDrifted`); under an unchanged shield that is a leftover rule
  (`DriftClassifier.ProtectedMeansLeftoverRule`, `DriftClassifier.LeftoverRuleExample`). An "allowlist" drift is reported
  exactly for an address allowlisted after a cycle was about to ban it (`DriftClassifier.AllowlistMeansAddedLater`).
* An access rule's key joins target, value and mode with colons and escapes none: a rule whose parts hold a colon, such as an
  IPv6 address, shares its key with some other triple (`SnapshotModel.IpKeyAmbiguous`). For the target kinds and modes in use,
  which hold none, keys stay apart (`SnapshotModel.IpKeyInjective`).
* The quota refresher's shift wraps: at 25 failures, at eleven more counts below 53 and at every count from 53 on there is
  no backoff at all
  (`Backoff.FailureDelayIsIdeal`).

## Model

| member | source | states |
|---|---|---|
| `CanonicalJson.RoundTrip` | internal/snapshot/builder.go:352-407 | decoding a printed value gives back the value and the text after it, for every value the strict decoder can deliver |
| `CanonicalJson.ObjectRoundTrip` | internal/snapshot/builder.go:373-390 | the same for objects, whose keys were sorted |
| `CanonicalJson.CanonInjective` | internal/snapshot/builder.go:352-407 | equal canonical text only for equal values |
| `CanonicalJson.CanonSelfDelimiting` | internal/snapshot/builder.go:352-407 | a text splits in at most one way into a printed value and a rest |
| `CanonicalJson.BareNumbersAreNotPrefixFree` | internal/snapshot/builder.go:358-407 | why bare top-level numbers need a terminator: one can be a prefix of another |
| `CanonicalJson.EscapeRoundTrip` | internal/snapshot/builder.go:362-364 | each character's escape decodes to that character and never looks like a closing quote |
| `Orders.StrLessMeans` | internal/snapshot/builder.go:375-379 | which of two strings is smaller: they agree up to a place where it ends or has the smaller character |
| `CanonicalJson.EscapedExactly` | internal/snapshot/builder.go:362-364 | which characters are escaped, the short escapes, and the spelling of the others |
| `CanonicalJson.MembersInKeyOrder` | internal/snapshot/builder.go:373-390 | an object is its members between braces, each key once, a smaller key before a greater one |
| `CanonicalJson.PrintedObject` | internal/snapshot/builder.go:373-390 | an object with the keys a and b prints a first, whatever the values |
| `CanonicalJson.PrintedValues` | internal/snapshot/builder.go:358-407 | literals, brackets, commas and escapes, letter by letter |
| `CanonicalJson.WriteCanonical` | internal/snapshot/builder.go:358-407 | the buffer grows by the canonical text, whatever order the map is visited in |
| `CanonicalJson.KeysInOrder` | internal/snapshot/builder.go:375-379 | collecting keys in any order and sorting gives the one increasing listing |
| `CanonicalJson.CanonicalJSON` | internal/snapshot/builder.go:352-356 | the returned text is the canonical text |
| `SnapshotModel.TrimIdempotent` | internal/snapshot/builder.go:250-261 | trimming twice is trimming once |
| `SnapshotModel.TrimExactly` | internal/snapshot/builder.go:250-261 | trimming takes away the spaces before and after a text and nothing else |
| `SnapshotModel.SpacesExactly` | internal/snapshot/builder.go:250-261 | the twenty-five characters that count as spaces |
| `SnapshotModel.CopyKeys` | internal/snapshot/builder.go:242-248 | exactly the named keys that are present are copied, trimmed, over what was there |
| `SnapshotModel.CopyStable` | internal/snapshot/builder.go:229-238 | exactly the keys that are not volatile survive |
| `SnapshotModel.FilterRaw` | internal/snapshot/builder.go:212-240 | per resource type, the loop copies the deciding attributes and no others |
| `SnapshotModel.FilteredExactly` | internal/snapshot/builder.go:212-261 | which attributes are kept of a raw item and with what value, key by key |
| `SnapshotModel.FilteredAlike` | internal/snapshot/builder.go:212-261 | two raw items normalise alike if and only if they agree, texts trimmed, on the attributes that decide |
| `SnapshotModel.FilterIdempotent` | internal/snapshot/builder.go:212-240 | filtered attributes are a fixed point of filtering |
| `SnapshotModel.FilterDecoded` | internal/snapshot/builder.go:212-240 | filtering keeps values decodable, so injectivity applies to what is planned |
| `SnapshotModel.IpKeyInjective` | internal/snapshot/builder.go:263-286 | access rules with different target, value or mode get different stable keys when target and mode hold no colon |
| `SnapshotModel.IpKeyAmbiguous` | internal/snapshot/builder.go:263-286 | an access rule shares its key with some other target, value and mode if and only if one of the three holds a colon |
| `SnapshotModel.StableKeyText` | internal/snapshot/builder.go:263-286 | how every stable key is spelt |
| `SnapshotModel.StableKeyIdentifies` | internal/snapshot/builder.go:263-286 | objects of one resource type share a key if and only if they share target, value and mode, or address, or name, or, without such fields, all attributes, or two different texts collide under the digest |
| `SnapshotModel.NormalizeObjects` | internal/snapshot/builder.go:178-210 | one normalised object per item in order, or failure if any item is not an object |
| `SnapshotModel.NormalizedExactly` | internal/snapshot/builder.go:178-210 | failure if and only if some item is no object; otherwise each object's identifier, type, stamp, attributes and key |
| `SnapshotModel.NormalizePermutation` | internal/snapshot/builder.go:178-210 | permuted items fail alike or normalise to permuted objects |
| `SnapshotModel.SortObjects` | internal/snapshot/builder.go:84-89 | the result is a sorted permutation by key, then canonical attributes |
| `SnapshotModel.SnapshotOrder` | internal/snapshot/builder.go:84-89 | objects are in the order of their keys, and under one key of their printed attributes |
| `SnapshotModel.SortedContentsUnique` | internal/snapshot/builder.go:84-89 | any two sorts of permuted objects list the same contents in the same order |
| `SnapshotModel.SnapshotOrderIndependent` | internal/snapshot/builder.go:48-126 | permuting the input array leaves keys, attributes and object hashes, in order, unchanged |
| `SnapshotModel.ObjectListDetermined` | internal/snapshot/builder.go:84-89 | the object list, identifiers included, is determined up to input order if and only if tied objects share an identifier |
| `SnapshotModel.ObjectPreimageUnambiguous` | internal/snapshot/builder.go:296-323 | the hashed text attributes+key fixes both |
| `SnapshotModel.ObjectHashIdentifies` | internal/snapshot/builder.go:296-323 | two objects have the same hash if and only if they have the same key and attributes or two different texts collide |
| `Planner.Plan` | internal/reconciliation/planner.go:19-110 | the operations are a sorted permutation of the deletions and the additions and updates; the summary counts are the sizes of the blocks of deletions, updates and creations, in this order, with targets in order within each |
| `Planner.PlanOrder` | internal/reconciliation/planner.go:93-119 | every plan deletes first, then updates, then creates, and with unique keys targets increase strictly within each block |
| `Planner.PlanConverges` | internal/reconciliation/planner.go:19-110 | applying a plan in order to the current state yields exactly the target state |
| `Planner.PlanIsMinimal` | internal/reconciliation/planner.go:43-91 | a key has an operation if and only if the two states differ there |
| `Planner.ReplanIsEmpty` | internal/reconciliation/planner.go:19-110 | planning again from the result plans nothing |
| `Planner.PlanIsDeterministic` | internal/reconciliation/planner.go:43-100 | permuting either input leaves the operation sequence unchanged despite the unstable sort |
| `Planner.OneOperationPerKey` | internal/reconciliation/planner.go:43-91 | with unique keys each key is touched at most once |
| `Planner.PlanMembers` | internal/reconciliation/planner.go:43-91 | which operations a plan holds, told from single objects |
| `Planner.PlannedExactly` | internal/reconciliation/planner.go:43-91 | which operations a plan holds, with every field, told from the two lists of objects |
| `Planner.AttributesEqual` | internal/reconciliation/planner.go:135-139 | comparing canonical texts is equality of decoded attributes |
| `Planner.DeriveIdempotencyKey` | internal/reconciliation/planner.go:146-153 | the key hashes type, target and payload text |
| `IdempotencyKeys.CanonIsNeutral` | internal/snapshot/builder.go:358-407 | outside its strings a canonical text balances its brackets and never closes more than it opened |
| `IdempotencyKeys.NoObjectEndsInAnother` | internal/snapshot/builder.go:358-407 | no canonical object ends in another one that follows a colon |
| `IdempotencyKeys.KeyTextUnambiguous` | internal/reconciliation/planner.go:146-153 | the hashed text fixes type, target and payload although targets and payloads hold the separator |
| `IdempotencyKeys.SameKeySameOperation` | internal/reconciliation/planner.go:146-153 | equal keys mean equal type, target and payload, or a hash collision on different texts |
| `IdempotencyKeys.PlannedKeysDiffer` | internal/reconciliation/planner.go:43-100 | operations of one plan over unique keys hash different texts |
| `Planner.IndexByKey` | internal/reconciliation/planner.go:31-41 | the index holds the last object of each key |
| `Planner.LastObjectCounts` | internal/reconciliation/planner.go:31-41 | of several objects under one key the last one counts |
| `Planner.CountType` | internal/reconciliation/planner.go:125-133 | the number of operations of one type |
| `Planner.CountsAddUp` | internal/reconciliation/planner.go:101-133 | the three counts add up to the plan |
| `Planner.ValidateDrift` | internal/execution/validators.go:16-56 | accepts exactly: a snapshot is there, and the key is absent from it if and only if it is to be created |
| `Planner.EveryStepPassesDrift` | internal/execution/validators.go:16-56 | run step by step, each planned operation finds its key absent from what the earlier ones left if and only if it creates it |
| `Executor.BatchGateSafety` | internal/execution/executor.go:93-337 | a mutator is invoked only after breaker, both approvals, guard, ownership and fencing said yes and an executing record was appended just before |
| `Executor.ExactlyTheseAreInvoked` | internal/execution/executor.go:93-337 | operation i reaches its mutator if and only if the batch was not refused, all earlier operations succeeded and its own gates are open |
| `Executor.BatchShape` | internal/execution/executor.go:119-337 | with k the stop point: every operation before k is completed with its result, the one at k is what its first obstacle makes it, those after are untouched; the journal appends are k pairs and the one tail that obstacle leaves; the breaker hears one outcome, success if and only if k is the whole batch |
| `Executor.BatchBeginsAndEnds` | internal/execution/executor.go:93-138 | the breaker is asked first and alone if it refuses, the batch approval next, and the breaker hears the outcome last but for the record of a cancelled run |
| `Executor.StoredJournal` | internal/execution/executor.go:119-337 | what the journal holds: of those appends exactly the ones that succeeded, in order |
| `Executor.RefusedBatchIsSilent` | internal/execution/executor.go:93-118 | a batch refused up front changes no operation, journals nothing and tells the breaker nothing; it leaves exactly the evidence of the batch approval that blocked it, and none if the breaker refused |
| `Executor.EvidenceTrail` | internal/execution/executor.go:106-201 | the approval evidence of a whole batch, in order: of the batch approval, then, unless refused, of each operation up to the stop point that has a mutator and was not cancelled before; required and blocked, or granted |
| `Executor.ApprovedMutationHasEvidence` | internal/execution/executor.go:93-337 | with an evidence store, every mutation that required an approval has evidence of a granted one |
| `Executor.SingleShape` | internal/execution/executor.go:140-337 | an operation completes if and only if every gate and the mutator say yes; its new state, error, result and times and its journal records are told by the first obstacle on its way |
| `Executor.QuestionsAsked` | internal/execution/executor.go:140-271 | each gate is asked if and only if all gates before it are open |
| `Executor.BlockMeansNotGranted` | internal/execution/executor.go:487-519 | an approval does not block exactly when it is not required or was granted and has not expired |
| `Executor.ExecutingRecordHeld` | internal/execution/executor.go:276-300 | the executing record is in the journal before the mutation if and only if its append succeeded |
| `Executor.UnjournalledMutation` | internal/execution/executor.go:276-300 | a run in which a mutator runs although the journal kept no record |
| `Executor.GovernedExecutor.PassGates` | internal/execution/executor.go:140-271 | questions asked, approval evidence appended, the record appended with its outcome, and the operation state at the gate that stops, or all passed |
| `Executor.GovernedExecutor.RunMutator` | internal/execution/executor.go:276-337 | executing record, mutation, final record and state, with the error the mutator or the cancelled context gave, each append with its outcome |
| `Executor.GovernedExecutor.ExecuteSingle` | internal/execution/executor.go:140-337 | the trace and the one array slot change as the step specification says, nothing else |
| `Executor.GovernedExecutor.ExecuteBatch` | internal/execution/executor.go:93-138 | trace, approval evidence included, operations and result are those of the batch specification |
| `Fencing.LeaseStoreFencingValidator.RequireFencing` | internal/execution/fencing.go:27-30 | sets the requirement |
| `Fencing.LeaseStoreFencingValidator.ValidateMutation` | internal/execution/fencing.go:36-73 | the verdict, error kinds included, of the read lease |
| `Fencing.AcceptedExactly` | internal/execution/fencing.go:36-73 | accepted if and only if it carries the live lease, or fencing is optional and it carries no fencing data |
| `Fencing.RefusedExactly` | internal/execution/fencing.go:36-73 | which verdict every refused operation gets |
| `Fencing.CheckGrantsExactly` | internal/execution/fencing.go:36-73 | in a run a validation grants an operation its slot, by scope and action or "reconcile", if and only if the live row of that slot holds its own lease |
| `Fencing.StepKeepsInv` | internal/execution/fencing.go:36-73 | every acquisition, renewal, expiry, release, check and execution keeps the invariant |
| `Fencing.AcceptedTokensNeverDecrease` | internal/execution/fencing.go:36-73 | in every interleaving accepted tokens, in validation order, never decrease per scope and action |
| `Fencing.SupersededIsRefused` | internal/execution/fencing.go:36-73 | after a newer acquisition an older token is refused at every later point |
| `Fencing.ExecutionOrderCanDecrease` | internal/execution/fencing.go:36-73 | execution order has no such guarantee |
| `Fencing.PromptExecutionIsInOrder` | internal/execution/fencing.go:36-73 | if every execution happens while its lease is the newest issued for its slot, executed tokens never decrease, in every interleaving |
| `Fencing.ExecuteKeepsOrderExactly` | internal/execution/fencing.go:36-73 | one more execution keeps the order if and only if no newer token of its slot was executed before |
| `Fencing.LateExecutionCanBeOutOfOrder` | internal/execution/fencing.go:36-73 | from any reachable state with a pending grant older than the live lease three steps put executions out of order |
| `Convergence.BatchAppliesAPrefix` | internal/execution/executor.go:93-138 | one executor call on a batch of planned operations takes the provider where a prefix of the plan leads: up to the stop point, possibly with the failed operation; a successful one applies the whole plan, a refused one nothing |
| `Convergence.ReplanYieldsTheRest` | internal/reconciliation/planner.go:19-110 | planning again after the first j operations took effect yields exactly the others, in the same order |
| `Convergence.RoundsWorkOffThePlan` | internal/reconciliation/planner.go:19-110 | over any sequence of rounds, each a plan and an executor call on it, round n plans exactly what the calls before it did not do of the first plan |
| `Convergence.FailingRoundsConverge` | internal/reconciliation/planner.go:19-110 | once the executor calls took as many operations to effect as the first plan held, nothing is left to plan and the provider is at the target |
| `Convergence.OneSuccessConverges` | internal/reconciliation/planner.go:19-110 | one executor call that reports success brings the provider to the target and leaves nothing to plan, whatever failed in the rounds before |
| `Convergence.NothingIsDoneTwice` | internal/reconciliation/planner.go:19-110 | over any sequence of failing batches the operations that take effect never exceed the first plan |
| `WafReplay.ScanHighWatermark` | internal/adapters/cloudflareevent/service.go:87-105 | the latest time among the fetched events, zero if none |
| `WafReplay.StepKeepsInv` | cmd/cf-sync/daemon_runtime.go:328-478 | the cursors stay behind the last query, and every event it could name that fewer than 50 events as new crowd was fetched |
| `WafReplay.NoMissedEvents` | cmd/cf-sync/daemon_runtime.go:328-478 | every timely event visible after the last cold start, nameable by some answered query and with fewer than 50 others as new shown by then, has been fetched, over all failures and restarts |
| `WafReplay.FetchedExactly` | internal/cloudflare/discovery/discovery.go:88-129 | a listed event is on every page if and only if fewer than 50 others are as new, on some page if and only if fewer than 50 are newer |
| `WafReplay.WindowExactly` | internal/cloudflare/discovery/discovery.go:88-129 | which events a query can name: shown by then, after the cursor less ten minutes and before the upper bound, both in whole seconds and excluded |
| `WafReplay.FirstReadyQuery` | cmd/cf-sync/daemon_runtime.go:356-478 | the first answered query that could name an event has it in its window, and returns it for certain if and only if fewer than 50 events as new had shown |
| `WafReplay.LostForGood` | internal/cloudflare/client/client.go:32-34 | with 50 newer events shown an event that was not fetched never is, in any continuation |
| `WafReplay.FateIsSealed` | cmd/cf-sync/daemon_runtime.go:328-478 | a timely event alone at its time is fetched in the run if and only if fewer than 50 newer ones had shown at the first query that could name it |
| `WafReplay.BurstLosesAnEvent` | internal/cloudflare/client/client.go:32-34 | a run in which 51 timely events lose one for good |
| `WafReplay.FiftyLoseNothing` | internal/cloudflare/client/client.go:32-34 | the same run with one event fewer loses none, whatever page answers |
| `WafReplay.WatermarkIgnoresTies` | internal/cloudflare/discovery/discovery.go:88-129 | the limit does not touch the cursor: every page of a window has the same watermark |
| `WafReplay.CursorNeverDecreases` | cmd/cf-sync/daemon_runtime.go:356-478 | with a readable store neither cursor moves back in any run |
| `WafReplay.ColdStartWindow` | cmd/cf-sync/daemon_runtime.go:444-468 | a cold start returns an older event if and only if the filter can name it, it is within interval plus overlap cut to whole seconds, and fewer than 50 events crowd it |
| `WafReplay.FailedLoadMovesBackExactly` | cmd/cf-sync/daemon_runtime.go:444-478 | after a failed load the next save moves the cursor back if and only if the newest event lies between the cold-start cursor and the saved one |
| `WafReplay.FailedLoadCanMoveCursorBack` | cmd/cf-sync/daemon_runtime.go:444-458 | such a run from the first start on |
| `WafReplay.Poller.LoadCursor` | cmd/cf-sync/daemon_runtime.go:444-458 | saved cursor, or now minus the interval without one or without a store |
| `WafReplay.Poller.RunIteration` | cmd/cf-sync/daemon_runtime.go:356-442 | both cursors move as the step relation says, with or without a cursor store: to the newest event if it is newer than the cursor, and otherwise to the clock if that is |
| `BanSync.NewAllowlistSet` | internal/app/runtime_helpers.go:28-40 | the index covers exactly what some readable entry covers |
| `BanSync.Contains` | internal/app/runtime_helpers.go:42-59 | membership by address or network, nothing for a missing index |
| `BanSync.BuildSyncPlan` | internal/app/crowdsec_sync_runtime.go:98-145 | additions are eligible minus listed, deletions listed minus eligible, each once |
| `BanSync.EligibleExactly` | internal/app/crowdsec_sync_runtime.go:98-145 | an address should have a rule if and only if some ban reads as it, the shield does not protect it, and no entry of a fetched allowlist is it or covers it |
| `BanSync.NothingExcludedIsAdded` | internal/app/crowdsec_sync_runtime.go:98-145 | no protected address and none covered by a fetched allowlist is planned for addition |
| `BanSync.ListByTag` | internal/cloudflare/client.go:143-169 | one of our rules per address, every address of our rules |
| `BanSync.ListingExactly` | internal/cloudflare/client.go:143-169 | an address is listed if and only if some rule with the sync loop's note names it, and with such a rule |
| `BanSync.SyncCloudflare` | internal/app/crowdsec_sync_runtime.go:147-203 | each cycle against the zone is a step of the cycle relation, a failure-free one a complete step; rules with other notes stay; nothing is deleted before every missing address was tried |
| `BanSync.ForeignRulesStay` | internal/app/crowdsec_sync_runtime.go:147-203 | no cycle, however it fails, touches a rule whose note is not "crowdsec-local-ban" |
| `BanSync.ForeignRulesStayForever` | internal/app/crowdsec_sync_runtime.go:147-203 | nor does any run |
| `BanSync.CycleTouches` | internal/app/crowdsec_sync_runtime.go:147-203 | what goes carries the note and names an address that is not eligible; what comes carries it and is for an eligible address that had none |
| `BanSync.CleanCycleServes` | internal/app/crowdsec_sync_runtime.go:147-203 | after a failure-free cycle every eligible address has a rule with the note, and of every other address that had one a rule is gone |
| `BanSync.PartialFailureStaysBetween` | internal/app/crowdsec_sync_runtime.go:147-203 | whatever fails, our rules stay between the intersection and the union of old rules and eligible bans |
| `BanSync.MeasureZero` | internal/app/crowdsec_sync_runtime.go:98-203 | the measure is zero if and only if the rules name exactly the eligible addresses |
| `BanSync.CleanCycleDecreases` | internal/app/crowdsec_sync_runtime.go:147-203 | each failure-free cycle strictly decreases stale rules plus missing bans, duplicates counted |
| `BanSync.SyncConverges` | internal/app/crowdsec_sync_runtime.go:147-203 | after that many failure-free cycles the rules are the eligible addresses |
| `BanSync.ConvergedIsFixed` | internal/app/crowdsec_sync_runtime.go:147-203 | a converged zone is not touched |
| `BanSync.NeverEligibleNeverAdded` | internal/app/crowdsec_sync_runtime.go:147-203 | over any run an address never eligible gains no rule |
| `BanSync.EligibleIsPrinted` | internal/app/crowdsec_sync_runtime.go:105-120 | eligible addresses are normalised and not excluded |
| `BanSync.BuildCleanupPlan` | internal/app/crowdsec_sync_runtime.go:423-437 | listed rules are split into kept and stale, each once |
| `BanSync.CleanupExactly` | internal/app/crowdsec_sync_runtime.go:347-437 | cleanup keeps what some ban reads as, or is when it cannot be read |
| `BanSync.CleanupDeletesLess` | internal/app/crowdsec_sync_runtime.go:347-437 | cleanup keeps every rule the sync loop wants |
| `CidrBan.GroupByNetwork` | internal/cidrban/service.go:136-151 | the nested map equals the naive set of distinct addresses per /24 |
| `CidrBan.AddedIffThreshold` | internal/cidrban/service.go:163-192 | a /24 is added if and only if two different addresses of it, the placeholder not counted, are banned, it is not tracked, and Cloudflare does not list it |
| `CidrBan.TrackedIsYoung` | internal/cidrban/service.go:194-211 | after a run with bans every tracked entry is younger than 24 hours |
| `CidrBan.TrackedExactly` | internal/cidrban/service.go:123-211 | what is tracked after a saved cycle, with times and counts |
| `CidrBan.StaysTracked` | internal/cidrban/service.go:123-211 | a /24 added in a saved cycle stays tracked with its time until 24 hours pass, whatever happens to later saves |
| `CidrBan.AddsAreSpaced` | internal/cidrban/service.go:123-211 | two adds of one /24 are at least 24 hours apart in every run in which the first one was saved |
| `CidrBan.LostSaveAddsAgain` | internal/cidrban/service.go:207-211 | while over the threshold, unlisted and young, a /24 is added again by the next cycle if and only if the save failed |
| `CidrBan.AddedAgainExactly` | internal/cidrban/service.go:123-211 | while over the threshold, unlisted and young, a /24 is added again by a later cycle if and only if no save in between succeeded |
| `CidrBan.Service.BanNetworks` | internal/cidrban/service.go:163-192 | tracked map, add calls and change flag of the first loop |
| `CidrBan.Service.ExpireOld` | internal/cidrban/service.go:194-206 | exactly the young entries survive |
| `CidrBan.Service.Run` | internal/cidrban/service.go:123-211 | add calls and saved state of one run, with or without a save |
| `Recidive.CountedBetweenCursors` | internal/recidive/service.go:106-183 | everything counted lies after the old cursor and not after the new one, which is the time of one of them |
| `Recidive.CountedExactly` | internal/recidive/service.go:128-141 | in every cycle of every run exactly the listed bans are counted, in order and with repetitions, that are after the cursor, name a real address, and are not escalations of this service |
| `Recidive.NothingIsRecounted` | internal/recidive/service.go:106-183 | once a cycle was saved every later cycle counts only newer bans, whatever happens to the other saves |
| `Recidive.LostSaveRecounts` | internal/recidive/service.go:176-183 | the next cycle over the same listing counts again if and only if the save failed and its cursor lies before some of what was counted |
| `Recidive.LostSaveRepeats` | internal/recidive/service.go:176-183 | with a cursor it counts again if and only if the save failed, and then the very same sightings |
| `Recidive.BootstrapNeedsTheFuture` | internal/recidive/service.go:123-135 | without a cursor the state changes if and only if some countable ban is stamped in the future |
| `Recidive.NeverBootstraps` | internal/recidive/service.go:106-183 | without such bans the state without a cursor is a fixed point of every run |
| `Recidive.EscalationLanguage` | internal/recidive/service.go:143-174 | each address escalates none, 24h, 168h for ever, until seven idle days: the saved cycles together, and every cycle on top of them |
| `Recidive.RunTracks` | internal/recidive/service.go:106-183 | the saved record of an address is where its saved sightings lead, whichever saves succeed |
| `Recidive.NothingIsPurged` | internal/recidive/service.go:101-183 | an address has a record if and only if it had one or was counted in a saved cycle, dated from its last saved sighting |
| `Recidive.RecordsNeverShrink` | internal/recidive/service.go:101-183 | no run forgets an address |
| `Recidive.OverdueExactly` | internal/recidive/service.go:101-183 | which saved records the documented purge would remove |
| `Recidive.OverdueRecordIsKept` | internal/recidive/service.go:101-183 | a saved cycle that keeps such a record |
| `Recidive.Service.Run` | internal/recidive/service.go:106-183 | escalations asked for and saved state of one run |
| `TrustedNetworks.PassIsAdditive` | internal/trustednetworks/registry.go:119-209 | nothing is removed from a spoke; what is added is tagged and from the registry |
| `TrustedNetworks.PassExactly` | internal/trustednetworks/registry.go:119-209 | what a pass reports and leaves, entry by entry in the order of the registry, with the comments it writes |
| `TrustedNetworks.ShadowOnlyLooks` | internal/trustednetworks/registry.go:119-209 | shadow mode changes nothing |
| `TrustedNetworks.EntriesAreConserved` | internal/trustednetworks/registry.go:119-209 | in enforce mode every entry is already there, pushed or an error |
| `TrustedNetworks.CleanPassCovers` | internal/trustednetworks/registry.go:119-209 | after an error-free enforce pass the registry is contained in the spoke |
| `TrustedNetworks.CoveredIsFixed` | internal/trustednetworks/registry.go:119-209 | a covered spoke is never pushed to |
| `TrustedNetworks.CleanPassSettles` | internal/trustednetworks/registry.go:92-209 | after one clean pass no later pass whose registry holds no new value changes the spoke, however its calls go |
| `TrustedNetworks.NothingDisappears` | internal/trustednetworks/registry.go:92-209 | over any run with a changing registry everything a spoke held stays |
| `TrustedNetworks.OnlyRegistryAppears` | internal/trustednetworks/registry.go:92-209 | whatever appears on a spoke is tagged and was in the registry of some pass |
| `TrustedNetworks.DriftMeans` | internal/trustednetworks/registry.go:154-227 | exactly the tagged values outside the registry drift, on CrowdSec once each |
| `TrustedNetworks.DriftPerRule` | internal/trustednetworks/registry.go:154-227 | on Cloudflare drift is one value per tagged rule outside the registry |
| `TrustedNetworks.SyncSpoke` | internal/trustednetworks/registry.go:119-209 | new spoke state and result from this spoke's inputs alone |
| `TrustedNetworks.FindDrift` | internal/trustednetworks/registry.go:154-227 | drift once per value on CrowdSec, once per rule on Cloudflare |
| `TrustedNetworks.Registry.Sync` | internal/trustednetworks/registry.go:92-117 | each spoke depends on the registry, the mode, its own prior state and its own calls; any mode but "enforce" and a failed load touch neither |
| `TrustedNetworks.CountsAgree` | internal/app/crowdsec_sync_runtime.go:332-345 | in enforce mode current and desired count agree exactly when no call failed |
| `TrustedNetworks.StatusTells` | internal/app/crowdsec_sync_runtime.go:327-345 | desired, current and drift counts of the status, from registry and spoke |
| `TrustedNetworks.AuthOkExactly` | internal/app/crowdsec_sync_runtime.go:327-345 | AuthOK holds if and only if the listing worked and no needed push failed |
| `TrustedNetworks.FailedPushClearsAuthOk` | internal/app/crowdsec_sync_runtime.go:327-345 | an empty spoke whose listing works and whose one push fails has AuthOK false |
| `Shadow.Compare` | internal/shadow/shadow.go:80-122 | the record of a plan, with Jaccard agreement |
| `Shadow.RecordExactly` | internal/shadow/shadow.go:80-122 | the counts, the two differences and the agreement of a record, from eligible bans and rules |
| `Shadow.AgreementMeansInSync` | internal/shadow/shadow.go:80-110 | agreement is 100 if and only if in sync if and only if rules equal eligible bans; 0 if and only if nothing is shared |
| `Shadow.DriftTellsInclusion` | internal/shadow/shadow.go:106-122 | the drift text tells which of the two sets holds the other |
| `Shadow.ComputeMetrics` | internal/shadow/shadow.go:125-187 | sums, average, minimum, true longest in-sync run, seven-day average and span test |
| `Shadow.MetricsOfOne` | internal/shadow/shadow.go:125-187 | the metrics of one record |
| `Shadow.MetricsAddUp` | internal/shadow/shadow.go:125-187 | the metrics of a history are those of its parts together: sums add, averages are weighted, the minimum is the lesser |
| `Shadow.PerfectHistory` | internal/shadow/shadow.go:125-187 | average 100, minimum 100, all in sync and longest run equal to the total are the same condition |
| `Shadow.EligibleIsSpan` | internal/shadow/shadow.go:172-184 | without zero stamps the scan decides whether two records are a week apart |
| `Shadow.ZeroStampDependsOnOrder` | internal/shadow/shadow.go:172-184 | in a direct call with a zero stamp the scan depends on the order |
| `Shadow.EligibleWithZeros` | internal/shadow/shadow.go:172-184 | in a direct call with zero stamps the span is that of the newest record against the oldest after the last zero stamp |
| `Shadow.Store.Append` | internal/shadow/store.go:24-40 | one more record, or none on failure |
| `Shadow.Store.ReadSince` | internal/shadow/store.go:66-79 | the records at or after a time, in order |
| `Shadow.Store.Prune` | internal/shadow/store.go:94-121 | exactly the records older than the limit go, or none on failure |
| `Shadow.Store.RecordShadowCycle` | internal/app/crowdsec_sync_runtime.go:205-258 | stored records and the report of one cycle |
| `Shadow.RecordedExactly` | internal/app/crowdsec_sync_runtime.go:205-231 | what the file holds after a cycle: old records and the new one, without those over thirty days old |
| `Shadow.PruningIsInvisible` | internal/app/crowdsec_sync_runtime.go:223-231 | in every run each seven-day read returns what an unpruned log would |
| `Shadow.EligibleOnlyOnTheDot` | internal/app/crowdsec_sync_runtime.go:205-247 | a report is eligible if and only if the read clock equals the current stamp and a record exactly one week older exists |
| `Shadow.NeverEligible` | internal/app/crowdsec_sync_runtime.go:205-247 | with a clock that moves between comparing and reading no report of any run is eligible |
| `Shadow.EightDaysAreNotEnough` | internal/shadow/shadow.go:64-66 | eight days of data that are still not eligible |
| `DriftClassifier.BuildTracker` | internal/shadow/classifier.go:114-140 | the tracker is the tally of all events in order |
| `DriftClassifier.TrackerIsExact` | internal/shadow/classifier.go:114-140 | exactly the keys that occur, with number, first and last time of occurrence |
| `DriftClassifier.Classify` | internal/shadow/classifier.go:100-164 | a report that lists each tracked key once, classified, counted per class and sorted by risk then count |
| `DriftClassifier.OccurrencesAreConserved` | internal/shadow/classifier.go:100-164 | occurrence counts add up to the false positives and negatives of the metrics |
| `DriftClassifier.ClassCountsAreConserved` | internal/shadow/classifier.go:142-148 | class counts add up to the number of distinct (address, direction) pairs |
| `DriftClassifier.ClassesThatOccur` | internal/shadow/classifier.go:166-231 | two classes never occur; the others fix direction, recurrence and risk |
| `DriftClassifier.ClassifiedExactly` | internal/shadow/classifier.go:166-231 | class and risk of every drift, from filters, direction and number of occurrences, with the threshold at three |
| `DriftClassifier.ReportOrder` | internal/shadow/classifier.go:100-164 | high risks first, low ones last, and within a risk the more frequent first |
| `DriftClassifier.GapsExactly` | internal/shadow/classifier.go:142-163 | gaps, class counts and totals of a report are those of its drifts |
| `DriftClassifier.ExplainedByGoGaps` | internal/shadow/classifier.go:259-280 | the gap classes that occur, with their counts, in the fixed order |
| `DriftClassifier.EveryDriftIsExplained` | internal/shadow/classifier.go:150-163 | gaps and timing account for every drift and nothing is unexplained |
| `DriftClassifier.OccurrenceCountIsCycles` | internal/shadow/classifier.go:60-73 | for recorded plans the occurrence count is the number of cycles the address appeared in |
| `DriftClassifier.FiltersLeaveNoFalsePositive` | internal/shadow/classifier.go:14-26 | with both filters covering the same addresses since the first cycle no false positive is due to a filter |
| `DriftClassifier.FilterClassesExactly` | internal/shadow/classifier.go:166-187 | in a planned history whose shield always protected the same addresses, protected means a false negative of a protected address, allowlist a false positive of an address allowlisted by now, both exactly |
| `DriftClassifier.ProtectedMeansDrifted` | internal/shadow/classifier.go:14-17 | whatever shields made the plans, an address is reported as protected if and only if it is protected by now and its rule drifted in some cycle; where a cycle was about to ban it, that cycle's shield did not protect it |
| `DriftClassifier.ProtectedMeansLeftoverRule` | internal/shadow/classifier.go:14-17 | while the shield protects the same addresses, an address is reported as protected if and only if it is protected and some cycle found a rule for it |
| `DriftClassifier.AllowlistMeansAddedLater` | internal/shadow/classifier.go:19-22 | whatever shields made the plans, an address is reported as allowlisted if and only if it is by now, is not protected, and some cycle was about to ban it, whose own allowlist did not cover it |
| `DriftClassifier.LeftoverRuleExample` | internal/shadow/classifier.go:14-17 | a planned history that reports a protected address |
| `DriftClassifier.LaterAllowlistExample` | internal/shadow/classifier.go:19-22 | a planned history that reports an allowlisted address |
| `Backoff.NewExponentialBackoff` | internal/httpclient/backoff.go:14-22 | any parameters give a positive base not above the maximum; usable ones are kept |
| `Backoff.DurationOf` | internal/httpclient/backoff.go:24-40 | the delay, with no step leaving 64 bits |
| `Backoff.DelayIsMonotone` | internal/httpclient/backoff.go:24-40 | delays lie between base and maximum and never shrink |
| `Backoff.DelayDoubles` | internal/httpclient/backoff.go:24-40 | each delay is twice the one before until half the maximum is reached |
| `Backoff.DelayIsIdeal` | internal/httpclient/backoff.go:24-40 | equal to min(base times 2^(n-1), max) except, by one unit, when the doubled base is one below an odd maximum |
| `Backoff.DelayReachesMax` | internal/httpclient/backoff.go:24-40 | every backoff is at its maximum from attempt 64 on |
| `Backoff.FailureDelayIsIdeal` | cmd/cf-sync/quota_refresh.go:296-305 | the failure delay is min(15m times 2^(n-1), 2h) if and only if n is not one of the listed wrapping counts, where it is not positive |
| `Backoff.EarlyFailures` | cmd/cf-sync/quota_refresh.go:296-305 | for 1 to 24 failures the delay is the documented one |
| `Backoff.QuotaRefreshers.RecordAbuseFailure` | cmd/cf-sync/quota_refresh.go:296-305 | one more failure, next attempt after its delay |
| `Backoff.QuotaRefreshers.MarkAbuseCooldown` | cmd/cf-sync/quota_refresh.go:288-294 | the next attempt only moves later |
| `Backoff.QuotaRefreshers.ResetAbuseBackoff` | cmd/cf-sync/quota_refresh.go:307-312 | back to the initial state |
| `Backoff.QuotaRefreshers.ShouldRefresh` | cmd/cf-sync/quota_refresh.go:271-286 | true exactly without a fresh observation and outside the backoff; a fresh observation resets |
| `Backoff.QuotaRefreshers.PrepareClient` | cmd/cf-sync/quota_refresh.go:163-175 | the transport always carries the key in force |
| `Backoff.QuotaRefreshers.Refresh` | cmd/cf-sync/quota_refresh.go:156-202 | whether a check is made, with which key, and the new backoff state |
| `Backoff.RefreshExactly` | cmd/cf-sync/quota_refresh.go:156-202 | case by case when a check is made and what becomes of the backoff |
| `Backoff.FailingRun` | cmd/cf-sync/quota_refresh.go:156-202 | while checks fail the state is the number of checks and the last check time plus its delay |
| `Backoff.ChecksAreSpaced` | cmd/cf-sync/quota_refresh.go:156-305 | in a failing run the next poll checks if and only if the delay is over, and at a wrapping count always |

## Left out

- Web UI, sessions, API server, CLI modes, configuration, logging, tracing, telemetry and metrics.
- Provider transports, `cscli`, SQLite repositories and other services seen only through their interfaces: their results
  are parameters. The circuit breaker and the propagation guard are allow/deny answers.
- File encodings and atomicity: a state file is its decoded value, and an operation on it succeeds or fails as a whole.
  Unparsable recidive records and unreadable shadow lines are not modelled.
- Identifiers derived from clocks (`OperationID`, `PlanID`, batch and evidence identifiers), reasons, report markdown and
  log texts.
- The `time.Time` and default branches of `writeCanonicalJSON`, which strictly decoded input never reaches, and the struct
  encoding around the object list in `CanonicalHash` and `SnapshotChecksum`.
- SnapshotModel.SortObjects: prints each object's attributes once before sorting instead of inside every comparison.
- DriftClassifier.Classify: the tracker holds values instead of pointers, so that `classifyOne` returns the classified
  drift instead of writing through a pointer; the pointers are not shared in the source.
- CidrBan.Service.Run: the Cloudflare rule deletions of expired entries and the results of the add calls, both ignored by
  the source, are left out; so is a state file that cannot be read or that holds `null`, where `loadState` returns a nil map
  and the source panics on its first write to it. A state file that cannot be parsed is the empty state.
- Executor.EvidenceTrail: an evidence entry is its place and kind (required, why it blocked, granted); identifiers, hashes and
  the other fields are left out, and so is whether the store kept the entry, an error the source discards.
- BanSync.SyncCloudflare: the branch to shadow recording is `Shadow.Store.RecordShadowCycle`; the two listings before it are
  assumed to have succeeded, since their failure ends the cycle with nothing done. A failed add or delete call may have
  taken effect or not, and both are covered.
- Fencing.StepKeepsInv: leases may be acquired at any time, also while another is live, which allows more runs than the
  lease store.
- Shadow.Compare: the agreement is an exact real; the source rounds it in float64.
- Shadow.ComputeMetrics: averages and percentages are exact reals; the source rounds them in float64.
- Shadow.PerfectHistory: the average is an exact real; the source rounds it in float64.
- TrustedNetworks.SyncSpoke: the order in which drift is reported, and audit events, are left out.
- Convergence.BatchAppliesAPrefix: a mutator has its effect wholly or not at all, and nobody else changes the provider
  during a round.
- Backoff.DurationOf: the zero value of the backoff struct, not built by its constructor, is not modelled.
- Backoff.QuotaRefreshers.Refresh: the failure counter does not wrap, and the mutex is not modelled; the VirusTotal,
  Spamhaus and Cloudflare refreshers have no backoff state.
- `toCIDR24`, `isInsideCIDR` and the parsing of addresses and networks are parameters.
- `extractObjects`, the strict decoder's own error cases, and `LastN` and `BuildRemediationList`, which add only easy
  members.
