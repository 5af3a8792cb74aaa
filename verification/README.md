# Verified model of the decision workflow

The repository turns one official incident into one city-response decision. A request to
inject an incident takes a lease on an idempotency row, an asynchronous workflow execution
computes and commits an immutable decision core, a commander publishes the result, and
anything may be retried, duplicated, late or lost on the way. This project models the parts
that make that safe and proves what they promise.

`dafny verify dfyconfig.toml` checks everything (Dafny 4.11).

## Parts

**Idempotency lease and fencing.** `LeaseRecord`, `Expressions`, `ExpressionBuilder`,
`LeaseTransitions` and `IdempotencyRepository` go from a declarative guard and mutation to the
generated conditional update, its meaning to the table service and the record it leaves.
`Verdicts`, `StatusActions`, `RecoveryGate`, `SameKeyRouter` and `FirstLease` are the
operations over the repository; their calls may be lost or lose their response (`Faults`).
`TransitionLaws` says column by column when each transition happens, what stage it leaves and which
verdict follows.
`LeaseProtocol` is the concurrent protocol of one key: every table operation is one step, so
other steps land between a failed write and its re-read, between the gate's two reads, and
between a reconcile and the re-lease. Any number of executions may be spawned per lease and may
run arbitrarily late; any actor may stop anywhere; `Expire` deletes the row. `LeaseHistory` says
what each event owes to the events before it, `LeaseInvariants` shows that every step keeps it,
`LeaseTheorems` reads the results off, `LeaseOwnership` says for which reasons an execution is ever
fenced, `LeaseStamps` adds what the row's audit and lease columns tell, `LeaseCounterexamples` plays
the runs that show what is not promised, and `LeaseGrading` says exactly when a FULL_WORKFLOW grade is
right about the core. `RecoveryProgress` shows that the sequential router is a run of the protocol and
always moves a stuck key on.

**Decision core.** `Json` prints values and proves JSON text unambiguous, and `JsonReader` reads it
back as RFC 8259 says; `Sorting`, `Canonical` and `CanonicalForm` are the canonical serializer and its
exact equivalence; `KeyOrder` says in what order keys are printed; `NumericOrder` says when sorted texts
of numbers ascend; `DecisionCore` builds, hashes and compares cores and `DecisionCoreLaws` says what is
hashed, when a core can be built and what a conflict reports; `DecisionCoreRepository` stores them
once; `FastPath` announces them.

**Publishing.** `PublishRecords` (transitions, audit trail), `PublishHandler` (one request over a
store), `PublishAnswers` (the exact condition of every answer), `PublishProtocol` and `PublishTheorems`
(concurrent requests), `PublishAuthors` (stored records follow their authors' requests),
`PublishSequential` (undisturbed requests are runs of the protocol), `PublishAlerts` (exactly how often
the public may be alerted).

**Citations and keys.** `CitationArticleSet`, `SopRetriever`, `InjectionKeys`.

Stores are classes whose methods are atomic. A ghost map of records says what a read returns;
`Repository.Valid` ties it to the stored items. The order of an execution's own actions (enter,
persist the core, flag it, push, complete; or ask the gate, flag, complete; or ask the gate, fail)
follows the comments of the status actions and the design document's list of workflow states.

## Where the code and its documents disagree

The model follows the code.

- Object keys of a normalized payload are said to be in lexicographic order
  (packages/domain/src/core_hash/canonical_core_hash.ts:50, design section 10.11a-1). An engine
  lists array indices first, so keys `"10"` and `"9"` are printed 9, 10. `LexicographicIff` says
  exactly when the order is lexicographic; the canonical-form theorem holds either way.
- Set-like arrays of numbers are said to be sorted by their numeric value (design section
  10.11a-1); the code sorts by serialized text, so 9 and 10 come out as 10, 9
  (`NumericOrderFails`). `NumericOrderIff` says exactly when the order is numeric, as it is for the
  one-digit article numbers (`SameDigitCountAscends`); the canonical-form theorem holds either way.
- The design clears `lease_owner` when a launch fails; the code leaves it
  (`FailedLaunchKeepsOwner`).
- An illegal execution name is said to be unreachable
  (packages/backend/src/inject/sfn_launcher.ts:193-197); an attempt of 10^21 or more reaches it.
- The alert is said to be sent at most once (packages/backend/src/publish/publish_fn.ts:456-464).
  That is so exactly when the record's trail holds at most one approval (`AtMostOneAlertIff`; for any
  bound, `AtMostAlertsIff`). With a second approval the public may be alerted twice for one decision:
  one channel refuses while the other alerts (`AlertedTwiceForOneDecision`), or the handler stops
  between the dispatch and the write (`AlertsReachApprovals`).
- A dispatch is said to fail when no channel succeeds (packages/backend/src/publish/channels.ts:321).
  As the handler calls it that never happens: two of the four outputs always succeed, so only the
  refusal of partial success makes a dispatch fail (`DispatchFailsIffRefused`).
- A failed launch, and a FULL_WORKFLOW lease taken after it, are said to mean that no core exists
  (packages/backend/src/inject/sfn_launcher.ts:376,
  packages/backend/src/inject/recovery_transitions.ts:138,
  packages/backend/src/inject/rerequest_router.ts:245). That is true exactly at the first attempt
  (`FailedLaunchMeansNoCoreIff`, `UngradedLeaseMeansNoCoreIff`); a core of an earlier attempt may be
  there later (`FailedLaunchDespiteCore`).
- FULL_WORKFLOW recommended by the gate is said to mean that no core is committed
  (packages/backend/src/recovery/recovery_gate.ts:40). It means that none was found at the gate's read;
  the lease finds one exactly when it was stored since (`GradedLeaseFindsCoreIff`,
  `FullWorkflowDespiteCore`). In either case the re-run leaves the core alone (`StoredCoreStays`).
- A failure that an execution reports with the error STALE_RUNNING_EXECUTION may be confirmed by
  the reconciler's write (`StaleConfirmationMayBeAnothers`); every other failure confirmation is of
  the execution's own write (`ConfirmsOwnFailureIff`), and `FailureConfirmationIsOwnIff` tells the
  two apart in the history.
- ALREADY_APPLIED is said to mean that this execution and attempt reached the target (design section
  22.1, property 33 (d)). For the core flag it may be an execution of an earlier attempt that did
  (`CoreConfirmationMayBeAnothers`); it is its own exactly when the flag was not yet set when its
  attempt was leased (`CoreConfirmationIsOwnIff`).

## Model

| member | source | states |
|---|---|---|
| ExpressionBuilder.ExpressionPlaceholders.Name | packages/backend/src/repository/idempotency_repository.ts:236-242 | An attribute gets one placeholder, earlier placeholders keep their meaning |
| ExpressionBuilder.ExpressionPlaceholders.Value | packages/backend/src/repository/idempotency_repository.ts:244-248 | Each value gets a placeholder of its own, earlier ones keep their value |
| ExpressionBuilder.ExpressionPlaceholders.NameTable | packages/backend/src/repository/idempotency_repository.ts:250-254 | The alias table is the exact inverse of the allocated names |
| ExpressionBuilder.BuildGuardConditions | packages/backend/src/repository/idempotency_repository.ts:266-303 | The terms test exactly the guard's fields; there are none exactly for the empty guard |
| ExpressionBuilder.BuildSetClauses | packages/backend/src/repository/idempotency_repository.ts:519-532 | The clauses write every defined entry once and the increment, in whatever order they are taken |
| ExpressionBuilder.Compile | packages/backend/src/repository/idempotency_repository.ts:498-545 | Every unusable call is refused with its own error, every usable one yields a command for exactly its guard and mutation |
| ExpressionBuilder.CompilationPreservesMeaning | packages/backend/src/repository/idempotency_repository.ts:266-303 | On every stored record the service's reply to the command is what guard and mutation call for, every other field unchanged |
| ExpressionBuilder.NeverUpserts | packages/backend/src/repository/idempotency_repository.ts:541-544 | An update of a missing key fails its condition |
| Expressions.GuardTestsMeaning | packages/backend/src/repository/idempotency_repository.ts:266-303 | The generated tests hold of an item exactly when the guard holds of its record; `<` on an absent or null field is false |
| Expressions.PutThenRead | packages/backend/src/repository/idempotency_repository.ts:350-380 | Storing a record and reading it back gives the record, nulls and absent attributes alike |
| LeaseTransitions.MutationOnRecord | packages/backend/src/repository/idempotency_repository.ts:519-533 | The mutated item reads as the mutated record, column by column |
| LeaseTransitions.EffectAppliesMutation | packages/backend/src/inject/recovery_transitions.ts:104-126 | For all seven updates, what is written has the stated effect on the record |
| LeaseTransitions.UpdatesAreUsable | packages/backend/src/repository/idempotency_repository.ts:319-347 | No status action or lease transition is ever a usage error |
| Expressions.MutationProblemIff | packages/backend/src/repository/idempotency_repository.ts:319-347 | Each usage error of a mutation and exactly when it is the one reported: empty, writes the key, sets and increments the attempt, writes what it removes |
| TransitionLaws.ActionHappensIff | packages/backend/src/workflow/mark_running.ts:62-82 | An execution's action happens exactly on the starting row of its lease, or on the running row of its name and attempt, and the flag only once |
| TransitionLaws.ReconciliationHappensIff | packages/backend/src/workflow/reconcile_stale_running.ts:63-112 | A reconciliation happens exactly on the observed running row past its observed deadline |
| TransitionLaws.ReLeaseHappensIff | packages/backend/src/inject/recovery_transitions.ts:135-213 | A re-lease happens exactly on the observed attempt of a failed launch, a retryable failure or an expired lease |
| TransitionLaws.LaunchFailureHappensIff | packages/backend/src/inject/sfn_launcher.ts:361-381 | A launch failure is recorded exactly on the row that still waits under that lease |
| TransitionLaws.FailureStage | packages/backend/src/workflow/mark_processing_failed.ts:65-97 | A failure leaves ENRICHMENT_ONLY exactly when the core was reported committed, NONE exactly for the identity conflict, the only failure that cannot be retried |
| TransitionLaws.ReconciliationStage | packages/backend/src/workflow/reconcile_stale_running.ts:63-112 | A reconciliation leaves a retryable STALE_RUNNING_EXECUTION, ENRICHMENT_ONLY exactly when the gate found the core |
| TransitionLaws.ReLeaseStage | packages/backend/src/inject/recovery_transitions.ts:104-126 | A re-lease writes the stage of its mode, and ENRICHMENT_ONLY exactly for a failure with a committed core |
| IdempotencyRepository.Repository.ConditionalPutNew | packages/backend/src/repository/idempotency_repository.ts:451-484 | Only a new key is inserted; the whole table afterwards and the answer, under every fault |
| IdempotencyRepository.Repository.ConditionalUpdateState | packages/backend/src/repository/idempotency_repository.ts:498-584 | The whole table afterwards and the answer, under every guard, mutation and fault |
| IdempotencyRepository.Repository.Transition | packages/backend/src/inject/recovery_transitions.ts:93-133 | A guarded transition changes its row exactly when its guard holds and the request gets through |
| IdempotencyRepository.Repository.GetConsistent | packages/backend/src/repository/idempotency_repository.ts:596-621 | A read returns the current record; a fault is never an absent key |
| StatusActions.ApplyOrConfirm | packages/backend/src/workflow/apply_or_confirm.ts:315-337 | One guarded write, then a re-read only if the condition failed; a fault is an error and never a verdict |
| StatusActions.ProceedIffTargetShown | packages/backend/src/workflow/apply_or_confirm.ts:231-300 | An execution may proceed exactly when the row belongs to it and its attempt and shows the target |
| TransitionLaws.VerdictIff | packages/backend/src/workflow/apply_or_confirm.ts:231-300 | Each verdict, and each reason for being fenced, is reported exactly on the rows it names: no row, another execution, another attempt, target not shown |
| TransitionLaws.LostResponseIsConfirmed | packages/backend/src/workflow/apply_or_confirm.ts:315-337 | Where only the response was lost, trying again is ALREADY_APPLIED and changes nothing |
| StatusActions.AlertShowsConflict | packages/backend/src/workflow/async_conflict_handler.ts:132-158 | Alert and notice name the reported decision, trace, attempt, execution, mismatches and hashes |
| StatusActions.HandleCoreIdentityConflict | packages/backend/src/workflow/async_conflict_handler.ts:105-169 | A fenced execution tells nobody; whoever is told, the row is the terminal conflict; the alert names execution, mismatches and hashes; a failed push is reported and changes nothing else; without faults it succeeds |
| StatusActions.ConflictProceedsIff | packages/backend/src/workflow/async_conflict_handler.ts:110-130 | A conflict is recorded for an execution exactly when the row belongs to it and its attempt and is running or already shows this conflict |
| StatusActions.OwnConflictIsRecorded | packages/backend/src/workflow/async_conflict_handler.ts:110-120 | The conflict of an execution that owns the running row is applied and terminal |
| RecoveryGate.EvaluateRecoveryGate | packages/backend/src/recovery/recovery_gate.ts:173-222 | The gate judges from row and core, each field of its judgement as stored, splits the required narratives exactly into existing and missing in their order, writes nothing, and a failed read is an error |
| RecoveryGate.RequiredSplits | packages/backend/src/repository/decision_narrative_reader.ts:136-145 | Existing and missing types split the required ones exactly, each in the required order |
| FirstLease.FirstRecordIsFresh | packages/backend/src/inject/first_lease.ts:103-156 | A record is built exactly for usable input, parses back to its parts, and is in progress until its lease ends |
| FirstLease.FirstRecordStartsProtocol | packages/backend/src/inject/first_lease.ts:103-156 | The record built is the one the protocol's first lease writes, but for the mode and stage asked for |
| FirstLease.AcquireFirstLease | packages/backend/src/inject/first_lease.ts:178-204 | Exactly the request that finds the key free gets its first lease |
| FirstLease.Launch | packages/backend/src/inject/sfn_launcher.ts:266-385 | A real failure marks the row start_failed if it still is that lease, and is reported whatever becomes of the write; success returns the derived name and the ARN |
| FirstLease.LaunchFailureIff | packages/backend/src/inject/sfn_launcher.ts:266-331 | Only a start with an ARN and an already existing execution are no failure; the error text and retryability recorded for each other answer |
| SameKeyRouter.ReacquireLeaseOf | packages/backend/src/inject/recovery_transitions.ts:73-133 | A re-lease wins exactly when its guard holds; unusable input changes nothing |
| SameKeyRouter.OrchestrateStaleRunning | packages/backend/src/inject/stale_orchestration.ts:128-185 | Gate, then reconcile, then re-lease, each only if the one before let it |
| SameKeyRouter.RouteSameKeyRequest | packages/backend/src/inject/rerequest_router.ts:165-284 | Answer and row of an undisturbed request; a fault is never a routing decision and leaves the row as found, reconciled or re-leased; no other key is touched |
| TransitionLaws.TriageIff | packages/backend/src/inject/rerequest_router.ts:120-284 | What the router makes of every row, each answer and each way to a lease with its exact condition |
| RecoveryProgress.RecoversIffStuck | packages/backend/src/inject/rerequest_router.ts:165-284 | A request run alone recovers exactly the rows that are not terminal and past their deadlines |
| RecoveryProgress.StuckKeysRecover | packages/backend/src/inject/rerequest_router.ts:165-284 | From every reachable stuck row: RECOVERED_RETRY_START, graded by row flag and core, next attempt starting |
| RecoveryProgress.AnswersOfRowsAtRest | packages/backend/src/inject/rerequest_router.ts:183-266 | The answer to every row that is not recovered: completed, terminal conflict or in progress |
| RecoveryProgress.RouterRefinesProtocol | packages/backend/src/inject/stale_orchestration.ts:128-185 | The sequential router leaves the row that the protocol's steps of one undisturbed request leave |
| RecoveryProgress.UndisturbedRequestRecovers | packages/backend/src/inject/rerequest_router.ts:165-284 | That run exists in the protocol from every reachable stuck state |
| LeaseInvariants.CoreInvNext | packages/backend/src/decision/decision_core_writer.ts:66-123 | Every step, row expiry included, keeps the core side: one core, every belief about it true, flag, mode and stage only with a core |
| LeaseInvariants.LeaseInvNext | packages/backend/src/workflow/apply_or_confirm.ts:231-337 | Every step but expiry keeps the lease side: row and history account for each other |
| LeaseTheorems.OneExecutionPerAttempt | packages/backend/src/workflow/mark_running.ts:55-86 | In every interleaving at most one execution writes, is let through or pushes at a given attempt |
| LeaseTheorems.FencingIsPermanent | packages/backend/src/workflow/apply_or_confirm.ts:231-300 | Once leased above an attempt, in every continuation its executions change nothing and are fenced |
| LeaseTheorems.NothingHappensBelowALease | packages/backend/src/workflow/apply_or_confirm.ts:231-300 | After a lease the history holds no write and no proceed verdict of an earlier attempt |
| LeaseOwnership.FencedForTwoReasonsOnly | packages/backend/src/workflow/apply_or_confirm.ts:248-288 | In every run without expiry a fenced execution is told DIFFERENT_EXECUTION or TARGET_NOT_REACHED, never a missing record or another attempt |
| LeaseOwnership.SupersededIsDifferentExecution | packages/backend/src/workflow/apply_or_confirm.ts:248-268 | An execution whose attempt was leased over is told DIFFERENT_EXECUTION whatever it tries |
| LeaseTheorems.LeasesAreConserved | packages/backend/src/inject/recovery_transitions.ts:93-133 | Leases carry attempts 1 to attempt_count once each and in order; of recoveries that observed one attempt at most one wins |
| LeaseTheorems.ConfirmationIsTrue | packages/backend/src/workflow/apply_or_confirm.ts:315-337 | A proceed verdict on MARK_RUNNING or MARK_COMPLETED: exactly one earlier step was this write by this execution and attempt |
| LeaseTheorems.FailureConfirmationIsTrue | packages/backend/src/workflow/mark_processing_failed.ts:55-97 | The same for failures, the reconciler's write counting only for STALE_RUNNING_EXECUTION |
| LeaseTheorems.FailureConfirmationIsOwnIff | packages/backend/src/workflow/mark_processing_failed.ts:55-97 | That verdict is for the execution's own write exactly when no reconciler ended this execution and attempt before |
| LeaseTheorems.CoreConfirmationIsTrue | packages/backend/src/workflow/mark_core_committed.ts:49-79 | A proceed verdict on MARK_CORE_COMMITTED: an execution of this or an earlier attempt set the flag |
| LeaseTheorems.CoreConfirmationIsOwnIff | packages/backend/src/workflow/mark_core_committed.ts:60-78 | That verdict is for the execution's own write exactly when the flag was not yet set when its attempt was leased |
| LeaseTheorems.FlagBelongsToItsLease | packages/backend/src/workflow/mark_core_committed.ts:60-68 | A flag is of an attempt's lease or a later one exactly when it was set after that lease |
| LeaseTheorems.CoreIsFlaggedOnce | packages/backend/src/workflow/mark_core_committed.ts:60-76 | The flag is written at most once in the life of a key |
| LeaseTheorems.LateConflictIsNotRecorded | packages/backend/src/workflow/reconcile_stale_running.ts:63-112 | A conflict found after reconciliation is fenced and not recorded as terminal |
| LeaseTheorems.CoreIsWrittenOnce | packages/backend/src/repository/decision_core_repository.ts:68-102 | The core is written at most once in every run, expiry and re-runs included |
| LeaseTheorems.StoredCoreStays | packages/backend/src/repository/decision_core_repository.ts:68-102 | A stored core is the same in every continuation |
| LeaseTheorems.AnnouncedCoreIsStored | packages/backend/src/events/publish_fast_path_ready.ts:191-216 | Every pushed core agrees in its five identity fields with the stored one, then and for ever, expiry included |
| LeaseTheorems.FlagsImplyCore | packages/backend/src/workflow/mark_core_committed.ts:56-78 | completed implies core_committed implies the core exists; so do ENRICHMENT_ONLY mode, stage and leases |
| LeaseTheorems.CommittedStays | packages/backend/src/inject/recovery_transitions.ts:104-126 | core_committed survives every re-lease |
| LeaseTheorems.ReLeaseMode | packages/backend/src/inject/recovery_transitions.ts:141-213 | A re-lease is ENRICHMENT_ONLY exactly when it grades a failed row as committed; a FULL_WORKFLOW re-lease leaves the core alone |
| LeaseTheorems.TerminalRoutingIsStable | packages/backend/src/inject/rerequest_router.ts:120-125 | After a completed or terminal-conflict answer every later request gets that answer and decision id |
| LeaseTheorems.TerminalTestIsExact | packages/backend/src/inject/rerequest_router.ts:120-125 | On reachable failed rows the two halves of the terminal test agree |
| LeaseStamps.RowsAreStamped | packages/backend/src/workflow/mark_core_committed.ts:68-76 | In every run the row names execution and attempt of the last guarded write; evidence is there exactly when the core is flagged, and is the flagging write's; attempt, mode and owner are those of the last lease, the owner until its execution ends; a starting row's stage is that of its mode |
| LeaseStamps.FailedLaunchKeepsOwner | packages/backend/src/inject/sfn_launcher.ts:361-381 | A row whose launch failed still names the owner of its lease |
| LeaseGrading.FailedLaunchMeansNoCoreIff | packages/backend/src/inject/sfn_launcher.ts:361-381 | In every run a failed launch of an attempt leaves a row without a core, if and only if it is the first attempt |
| LeaseGrading.UngradedLeaseMeansNoCoreIff | packages/backend/src/inject/recovery_transitions.ts:135-213 | The same for a FULL_WORKFLOW lease taken from a failed launch or an expired lease without asking the gate |
| LeaseGrading.UnnamedRowHasNoCore | packages/backend/src/inject/recovery_transitions.ts:135-156 | No core exists while no execution or reconciler has left its name on the row, whatever the attempt |
| LeaseGrading.FirstAttemptHasNoCore | packages/backend/src/inject/recovery_transitions.ts:135-156 | No core exists while the first attempt waits for its execution |
| LeaseGrading.GradedLeaseFindsCoreIff | packages/backend/src/recovery/recovery_gate.ts:184-222 | A lease won after the gate is ENRICHMENT_ONLY exactly when the gate found a core; a FULL_WORKFLOW one finds a core exactly when one was stored since the gate's read, or when there was no decision id to read by; expiry included |
| LeaseCounterexamples.FullWorkflowDespiteCore | packages/backend/src/recovery/recovery_gate.ts:184-222 | A run that leases FULL_WORKFLOW although the core exists: it is stored after the gate looked |
| LeaseCounterexamples.FailedLaunchDespiteCore | packages/backend/src/inject/sfn_launcher.ts:361-381 | A run in which a failed launch grades FULL_WORKFLOW although the core of the attempt before exists and is flagged |
| LeaseCounterexamples.CoreConfirmationMayBeAnothers | packages/backend/src/workflow/mark_core_committed.ts:77 | A run in which ALREADY_APPLIED confirms a flag that the attempt before set |
| LeaseCounterexamples.ConfirmsOwnFailureIff | packages/backend/src/workflow/mark_processing_failed.ts:94-95 | In every run a proceed verdict on a failure is for the execution's own write, if and only if its error is not STALE_RUNNING_EXECUTION |
| LeaseCounterexamples.StaleConfirmationMayBeAnothers | packages/backend/src/workflow/mark_processing_failed.ts:94-95 | A run in which ALREADY_APPLIED confirms the reconciler's write, not the execution's |
| Json.PrintIsDelimited | packages/domain/src/core_hash/canonical_core_hash.ts:51-53 | JSON text is unambiguous: a printed value is found again in front of whatever may follow it (RFC 8259 sections 4, 5 and 7) |
| Json.PrintIsInjective | packages/domain/src/core_hash/canonical_core_hash.ts:51-53 | Different values have different texts |
| JsonReader.ValueRead | packages/domain/src/core_hash/canonical_core_hash.ts:51-53 | Reading a printed value as RFC 8259 (sections 3 to 7) says gives back the value and leaves what follows it |
| JsonReader.CanonicalTextReads | packages/domain/src/core_hash/canonical_core_hash.ts:51-84 | The canonical text, read as JSON, is the normalized value and nothing more |
| JsonReader.PrintedIsWellPaired | packages/domain/src/core_hash/canonical_core_hash.ts:51-59 | A printed value has no lone surrogate, whatever its texts hold, so encoding it as UTF-8 for the hash loses nothing |
| JsonReader.EscapeForm | packages/domain/src/core_hash/canonical_core_hash.ts:51-53 | What is printed for each code unit: itself where JSON allows it, else the short escape if there is one, else four hexadecimal digits |
| Sorting.SortIsCanonical | packages/domain/src/core_hash/canonical_core_hash.ts:68-73 | Sorting forgets the order in which keyed elements came |
| CanonicalForm.SortCommutes | packages/domain/src/core_hash/canonical_core_hash.ts:74-82 | Sorting keys before normalizing, as the code does, or after gives the same fields |
| CanonicalForm.SameTextIffEquivalent | packages/domain/src/core_hash/canonical_core_hash.ts:51-90 | Two values have the same text exactly when equal up to key order, undefined fields, -0 and the order of set-like arrays |
| CanonicalForm.NormalizeIsIdempotent | packages/domain/src/core_hash/canonical_core_hash.ts:61-84 | Normalizing twice is normalizing once |
| CanonicalForm.SerializesIffSupported | packages/domain/src/core_hash/canonical_core_hash.ts:61-84 | Serialization throws exactly on non-finite numbers, unsupported values and undefined array elements |
| CanonicalForm.ComparatorComparesTexts | packages/domain/src/core_hash/canonical_core_hash.ts:86-90 | The comparator of normalized elements compares their texts |
| CanonicalForm.LexicographicIff | packages/domain/src/core_hash/canonical_core_hash.ts:74-82 | Keys come out in lexicographic order exactly when no key sorts before an array index and indices sort as numbers |
| CanonicalForm.LexicographicOrderFails | packages/domain/src/core_hash/canonical_core_hash.ts:50-82 | Keys "10" and "9" break the condition |
| KeyOrder.NormalizedOrder | packages/domain/src/core_hash/canonical_core_hash.ts:74-82 | Every normalized object prints its array indices first, ascending as numbers, then its other keys, ascending by code units |
| KeyOrder.SetLikeOrder | packages/domain/src/core_hash/canonical_core_hash.ts:68-73 | The elements of a set-like array ascend by their texts |
| KeyOrder.BeforeIff | packages/domain/src/core_hash/canonical_core_hash.ts:86-90 | One text sorts before another exactly when it is a proper prefix or smaller at the first difference |
| KeyOrder.IndexKeyIff | packages/domain/src/core_hash/canonical_core_hash.ts:77-82 | The keys an engine lists first are the decimal texts of the numbers below 2^32 - 1 |
| NumericOrder.NumericOrderIff | packages/domain/src/core_hash/canonical_core_hash.ts:68-73 | A set-like array of non-negative integers comes out in numeric order exactly when every number with fewer digits also sorts first as a text |
| NumericOrder.SameDigitCountAscends | packages/domain/src/core_hash/canonical_core_hash.ts:68-73 | Numbers with equally many digits come out in numeric order |
| NumericOrder.NumericOrderFails | packages/domain/src/core_hash/canonical_core_hash.ts:68-73 | The numbers 9 and 10 come out as 10, 9 |
| DecisionCore.PayloadEquivalence | packages/domain/src/core_hash/canonical_core_hash.ts:21-48 | Payloads are equivalent exactly when the four texts are equal and each of the 20 facts, by name, is equivalent, five of them as sets |
| DecisionCore.RetryIffEquivalent | packages/backend/src/decision/identity_classifier.ts:64-85 | Two built cores have the same identity exactly when the four texts are equal and each of the 20 facts is equivalent, if their two canonical texts do not collide |
| DecisionCore.OtherExecutionIsRetry | packages/domain/src/decision/decision_core_builder.ts:17-54 | The same facts rebuilt under any other run id, execution name or version classify as the same decision |
| DecisionCore.ClassifyCoreIdentity | packages/backend/src/decision/identity_classifier.ts:64-85 | Same exactly when all five fields agree, and the mismatches are the disagreeing fields in order |
| DecisionCore.MismatchesAreDifferences | packages/backend/src/decision/identity_classifier.ts:68-76 | Every reported mismatch is a real one with the right two values, and none is missing when any field differs |
| DecisionCoreLaws.IdentityIsHashed | packages/domain/src/core_hash/canonical_core_hash.ts:22-26 | The payload shows the four identifying texts under their names |
| DecisionCoreLaws.IncidentIsHashed | packages/domain/src/core_hash/canonical_core_hash.ts:27-29 | The payload shows the incident's facts under their names |
| DecisionCoreLaws.SopIsHashed | packages/domain/src/core_hash/canonical_core_hash.ts:30-34 | The payload shows articles, procedures, measures and classifications under their names |
| DecisionCoreLaws.EvacuationIsHashed | packages/domain/src/core_hash/canonical_core_hash.ts:35-39 | The payload shows anchor, evacuations, exclusions and scope under their names |
| DecisionCoreLaws.PresentationIsHashed | packages/domain/src/core_hash/canonical_core_hash.ts:40-46 | The payload shows the estimate, languages, evidence, policy and text under their names |
| DecisionCoreLaws.NothingElseIsHashed | packages/domain/src/core_hash/canonical_core_hash.ts:21-48 | The payload has 24 fields with different names: those above and no other |
| DecisionCoreLaws.BuildSucceedsIff | packages/domain/src/decision/decision_core_builder.ts:17-54 | A core is built exactly without article 7 among the triggered articles and with every fact serializable; it keeps its input and the hash of the canonical text |
| DecisionCoreLaws.MismatchesListed | packages/backend/src/decision/identity_classifier.ts:32-85 | The reported mismatches are the differing fields among the five, in their order, each with the computed and the stored value |
| DecisionCoreLaws.RereadIff | packages/backend/src/decision/decision_core_writer.ts:88-122 | After a taken id: the stored core exactly for the same identity, otherwise a conflict with its mismatches, over the id alone when nothing is found |
| DecisionCoreLaws.OrderForgottenIff | packages/domain/src/core_hash/canonical_core_hash.ts:10-18 | The canonical text forgets the order of two different elements exactly under the seven set-like keys |
| DecisionCoreRepository.CoreRepository.ConditionalPutNew | packages/backend/src/repository/decision_core_repository.ts:68-102 | Inserts under a new id only; the whole table afterwards, under every fault |
| DecisionCoreRepository.PersistDecisionCore | packages/backend/src/decision/decision_core_writer.ts:78-123 | Three-way outcome; no stored core ever changes; success only for the stored identity |
| FastPath.ReadyEventIdsAgreeIff | packages/backend/src/events/publish_fast_path_ready.ts:45-53 | An event id names one decision and one version |
| FastPath.EteMinutesShown | packages/backend/src/events/publish_fast_path_ready.ts:163 | The event shows the estimate's minutes, and null without an estimate or without minutes |
| FastPath.ReadyEventShowsCore | packages/backend/src/events/publish_fast_path_ready.ts:133-168 | Every field of the event is that of the committed core, or the trace and policy version of the request |
| FastPath.Publisher.PublishFastPathReady | packages/backend/src/events/publish_fast_path_ready.ts:191-252 | A fenced execution announces nothing, nor is anything posted when the connections cannot be listed; otherwise each connection is tried once, failures stop no other, and delivered, failed and stale ones are listed exactly |
| PublishRecords.InferredTransitionIsLegal | packages/backend/src/publish/publish_transitions.ts:72-83 | What is inferred is legal; nothing is inferred exactly for failed and published records |
| PublishRecords.AppendIsSound | packages/backend/src/publish/audit_trail.ts:104-132 | A legal step keeps version = trail length, a legal chain from null, the approver of the latest approval, and a failure reason exactly on a failed record |
| PublishRecords.NothingFollowsPublished | packages/backend/src/publish/publish_transitions.ts:33-43 | A published entry can only stand last |
| PublishRecords.ValidateAuditTrailIntegrity | packages/backend/src/publish/audit_trail.ts:148-178 | Valid exactly for connected trails that end in the record's state; a break is reported where it first occurs |
| PublishRecords.TargetReachedIff | packages/backend/src/publish/publish_idempotency.ts:82-110 | A record in the target state is a retry exactly at the expected version and a drift at any other, reported as it is |
| PublishRecords.OwnVersionNeverDrifts | packages/backend/src/publish/publish_idempotency.ts:82-110 | As the handler calls it, the check proceeds exactly when the target is not reached and never reports drift |
| PublishHandler.PublishStore.AcquirePublishDispatch | packages/backend/src/publish/publish_fn.ts:479-489 | The first caller gets a version's claim, for good |
| PublishHandler.ApplyPublishTransition | packages/backend/src/publish/publish_state_machine.ts:149-215 | An illegal step never reaches the table; insert at version 0, update under the version lock otherwise |
| PublishHandler.PlansAreSound | packages/backend/src/publish/publish_fn.ts:385-545 | Only an approved record is dispatched and every record written is a sound next version of the one read |
| PublishAnswers.PlanIff | packages/backend/src/publish/publish_fn.ts:380-454 | What a request comes to from the record it read, each refusal, write and dispatch with its exact condition |
| PublishAnswers.WrittenShown | packages/backend/src/publish/audit_trail.ts:104-132 | A written record adds one entry by this actor and shows the reason that was given |
| PublishAnswers.DeliveredShown | packages/backend/src/publish/publish_fn.ts:489-548 | After a dispatch the record is published with the channels, or failed with their refusals |
| PublishAnswers.AnswerIff | packages/backend/src/publish/publish_fn.ts:344-584 | Every answer of an undisturbed request with its exact condition; only a request to publish an approved record claims and sends |
| PublishHandler.WriteAnswerIff | packages/backend/src/publish/publish_fn.ts:515-566 | A failed dispatch is always told as one, recorded or not; otherwise stored, version conflict, illegal step and fault each have their own answer |
| PublishTheorems.RefusedIffOvertaken | packages/backend/src/publish/publish_state_machine.ts:149-215 | In every run a handler's write is refused for its version exactly when a newer record was stored since its read |
| PublishHandler.HandlePublish | packages/backend/src/publish/publish_fn.ts:344-584 | Something is sent only under a claim this request took; a failure without a reason changes nothing and is refused; what is answered as stored is stored; without faults the outcome exactly |
| PublishProtocol.InvNext | packages/backend/src/publish/publish_fn.ts:465-548 | Every step of concurrent handlers keeps history, claims and pending writes consistent |
| PublishTheorems.SentOncePerApprovedVersion | packages/backend/src/publish/publish_fn.ts:479-494 | Under stale reads, lost responses and crashes each approved version is dispatched at most once |
| PublishTheorems.SendsNeverExceedApprovals | packages/backend/src/publish/publish_fn.ts:479-494 | Dispatches never outnumber the approvals in the stored trail |
| PublishHandler.DispatchFailsIffRefused | packages/backend/src/publish/channels.ts:292-343 | A dispatch fails exactly when a public channel refuses, although the other may have alerted the public; with partial success allowed none would ever fail |
| PublishHandler.FailureNamesRefusals | packages/backend/src/publish/channels.ts:336-339 | The failure reason names the channels that refused, in order, with their reasons |
| PublishTheorems.PublisherHeldTheClaim | packages/backend/src/publish/publish_fn.ts:479-548 | A stored published record was written by the holder of the claim for the version before, who dispatched it, and names all the channels, which all took it |
| PublishTheorems.StoredRecordsGrow | packages/backend/src/publish/audit_trail.ts:104-178 | Every stored record is sound and connected, has a failure reason exactly when it is failed, and extends every earlier stored trail |
| PublishAuthors.StoredRecordsFollowRequests | packages/backend/src/publish/publish_fn.ts:427-548 | In every run a stored record shows its author's actor, time and wanted state, and a failed one the reason of that request or the refusals of that author's own dispatch |
| PublishTheorems.PublishedIsFinal | packages/backend/src/publish/publish_transitions.ts:33-43 | Nothing is stored after a published record |
| PublishTheorems.PublishedShowsApprover | packages/backend/src/publish/audit_trail.ts:117-122 | A published record shows the actor of the latest approval and its own publisher |
| PublishTheorems.PublicationIsReachable | packages/backend/src/publish/publish_transitions.ts:33-83 | From every reachable unpublished record, claim used up or not, at most three undisturbed requests publish it |
| PublishSequential.PublicationRunExists | packages/backend/src/publish/publish_transitions.ts:33-83 | Those requests are a run of the concurrent protocol that ends in a reachable published state |
| PublishSequential.HandlerRefinesProtocol | packages/backend/src/publish/publish_fn.ts:344-584 | The sequential outcome is what the protocol's steps of one undisturbed request lead to |
| PublishAlerts.AtMostAlertsIff | packages/backend/src/publish/publish_fn.ts:456-494 | In every run that leads to a trail there were at most n alerts and dispatches, if and only if the trail records at most n approvals |
| PublishAlerts.AtMostOneAlertIff | packages/backend/src/publish/publish_fn.ts:456-464 | The alert goes out at most once for a decision exactly when its trail records at most one approval |
| PublishAlerts.AlertsReachApprovals | packages/backend/src/publish/publish_fn.ts:489-548 | Every legal trail has a run in which each of its approvals was dispatched and reached the public |
| PublishAlerts.AlertedTwiceForOneDecision | packages/backend/src/publish/publish_fn.ts:495-540 | A run without a crash that alerts the public twice for one decision: one channel refuses at first |
| CitationArticleSet.BuildCitationArticleSet | packages/rag/src/citation_article_set.ts:41-57 | The first invalid number is the error, otherwise the union, ascending and without repetition |
| CitationArticleSet.FindMissingCitations | packages/rag/src/citation_article_set.ts:71-87 | Exactly the required articles that are not covered, ascending |
| SopRetriever.MapKbResults | packages/rag/src/sop_retriever.ts:345-385 | One citation per article of the set that has a result, the first of the best-scored, and the number of unmapped results |
| SopRetriever.TryS3Fallback | packages/rag/src/sop_retriever.ts:244-271 | What S3 has and what it has not, in order, with the last error |
| SopRetriever.OrderByArticleSet | packages/rag/src/sop_retriever.ts:311-324 | The same citations, those of the set first and on either side by ascending number; with one citation per article, in the order of the set |
| SopRetriever.Retrieve | packages/rag/src/sop_retriever.ts:155-240 | Success is the set's citations in order with the right source label; failure splits the set exactly, with what the knowledge base lacked or its error, and S3's last error |
| SopRetriever.OneCitationEach | packages/rag/src/sop_retriever.ts:155-240 | Where nothing failed there is exactly one citation per article, in the set's order |
| SopRetriever.CitationsAreBest | packages/rag/src/sop_retriever.ts:345-385 | A knowledge-base citation shows text, location and score of the first of its article's best results; S3 is used, unchanged, only where there is none |
| InjectionKeys.ParseInvertsDerive | packages/backend/src/inject/idempotency_key.ts:85-100 | Parsing inverts deriving on exactly the valid parts |
| InjectionKeys.DeriveInvertsParse | packages/backend/src/inject/idempotency_key.ts:85-100 | Deriving inverts parsing on all parseable keys |
| InjectionKeys.KeysAreDistinct | packages/backend/src/inject/idempotency_key.ts:55-91 | Distinct triples never share a key |
| InjectionKeys.BadPartIff | packages/backend/src/inject/idempotency_key.ts:55-91 | A key that cannot be derived names its first part that is empty or contains the separator |
| InjectionKeys.NoTripleNoDecision | packages/backend/src/inject/idempotency_key.ts:111-119 | No decision id exactly for a text that is no triple of valid parts |
| InjectionKeys.DecisionIdShape | packages/backend/src/inject/idempotency_key.ts:121-127 | The decision id shows the event and the first 12 digits of the key's digest |
| InjectionKeys.DecisionIdsAgreeIff | packages/backend/src/inject/idempotency_key.ts:111-127 | Decision ids agree exactly when event ids and the digests' first 12 digits do |
| InjectionKeys.NameExistsIff | packages/backend/src/inject/sfn_launcher.ts:172-199 | A legal name of at most 80 characters exists exactly for a non-empty key and 1 <= attempt < 10^21 |
| InjectionKeys.NameErrorIff | packages/backend/src/inject/sfn_launcher.ts:172-197 | Why there is no name: an empty key, an attempt below 1, or one printed with an exponent |
| InjectionKeys.SanitizedIsTidy | packages/backend/src/inject/sfn_launcher.ts:149-154 | A sanitized segment has legal characters only, no underscore at either end and no two in a row |
| InjectionKeys.SanitizedIsItsWords | packages/backend/src/inject/sfn_launcher.ts:149-154 | A sanitized segment is every word of the text, in order, with one underscore between any two |
| InjectionKeys.NameShape | packages/backend/src/inject/sfn_launcher.ts:184-199 | A name shows as much of the sanitized key as 80 characters allow, the attempt, and the first 16 digits of the digest of both |
| InjectionKeys.NameTellsAttempt | packages/backend/src/inject/sfn_launcher.ts:165-166 | Equal names mean equal printed attempts, whatever the key and the digest |

## Left out

- SHA-256 is a function parameter; `RetryIffEquivalent` asks only that the two texts at hand do not
  collide. UTF-8 encoding before hashing is not modelled; it loses nothing, since printed texts have no
  lone surrogates (`PrintedIsWellPaired`).
- A finite number is its printed token; how JavaScript prints numbers is not modelled beyond that.
- Values with getters, `toJSON`, prototypes, symbols or array holes: payloads are plain data,
  `undefined`, or one unsupported value.
- The narrative table: what it answers to the gate's query is a parameter.
- Set-like arrays of numbers that are not non-negative integers: `NumericOrder` says nothing about
  their order.
- Timing of the workflow definition itself: the model lets an execution stop at any time and act as
  late as it likes, in the order its actions require.
- The reaction to `insufficient_data`: such an execution stops or marks a failure.
- Non-integer or non-finite attempts, times and durations; messages and other wording.
- Freezing and cloning of a built core: cores are values.
- `extractArticleNo`: how an article number is found in a result's metadata or location.
- The `action` of an audit entry, which repeats its target state.
- Commander authorization, body parsing, HTTP envelopes, WebSocket delivery, telemetry, alert texts,
  channel payloads, prompts, ingestion and configuration.
- LeaseTheorems.OneExecutionPerAttempt: speaks of runs in which the row does not expire, because a
  deleted row starts again at attempt 1; the core results hold in runs with expiry too.
- PublishTheorems.PublicationIsReachable: assumes a committed core, a ready alert and working
  channels, because without them the handler refuses to publish.
