# Control-plane model

A Dafny model of the Postbase control plane and of the small protocols around it, with proofs of
what they guarantee over whole histories: any number of requests, in any order, that succeed,
fail, are retried or die half-way. `dafny verify dfyconfig.toml` checks all of it.

Database tables are sequences or maps of rows. A request that ends in a commit is one step;
where the interesting behaviour lies between two flushes, or between a read and a write, the
steps are those. Health checks, provider DDL, clocks and network failures are parameters, so
every statement holds for all their outcomes.

| files | what they model |
|---|---|
| `SwitchoverModel`, `SwitchoverFlushLevel`, `SwitchoverCommitLevel`, `SwitchoverOutcome`, `SwitchoverEngine` | the phased switchover of a binding to another provider: one run as a value, histories in which any flush may be the last thing that happened, histories seen between requests (a refinement of the former), what a run leaves column by column, and the engine updating its rows in place |
| `IdempotencyModel`, `IdempotencyProofs`, `IdempotencyService` | the protocol behind the Idempotency-Key header: requests racing through check, reserve, execute and persist |
| `SecretModel`, `SecretProofs`, `SecretService` | secret versions, rotation, revocation and the two resolution queries |
| `BindingModel`, `BindingProofs`, `BindingService` | binding versions, status changes, supersession, and how switchovers interfere |
| `MigrationModel`, `MigrationProofs`, `MigrationService` | the life of a schema migration with its definition, drift report and execution log |
| `TokenRefresh` | the single-flight token refresh of the browser client |
| `LogMerge`, `LogOrder`, `LogStreaming` | the truncating log merge of the observability page, streams merged batch by batch, and where the two part |
| `ConnectionModel`, `ConnectionProofs`, `ConnectionService` | the WebSocket connection manager |
| `UsageModel`, `UsageProofs`, `UsageService`, `Overview` | metering, quota and the project overview |

Each area has a model of functions on values, proofs about every history of that model, and a
class (or methods) in the shape of the code whose methods are proved to compute exactly the
functions of the model.

## Where the code falls short of its promise

Each of these is proved with a concrete history, and with the exact condition under which the
promise does hold.

- A switchover can be COMPLETED on its old provider. The failure path puts the binding back but
  keeps `stage_target` in `completed_phases`, so the next run skips staging
  (`SwitchoverCommitLevel.ResumeCanCompleteOnOldProvider`, `SwitchoverCommitLevel.CompletedMeaning`,
  `SwitchoverCommitLevel.ResumeReachesTarget`). The engine's own assertion on completed plans
  does not look at the provider.
- A run that dies right after flushing an aborted canary can, when executed again, stage the
  target and complete on it: the recovery block forgets `stage_target` but not `canary`
  (`SwitchoverFlushLevel.AbortedCanaryCanReachTarget`, `SwitchoverFlushLevel.AbortedCanaryOnTarget`).
- A run that dies right after flushing `validate_cutover` completes on the next run with a
  binding in PENDING_VALIDATION (`SwitchoverFlushLevel.CompletedButInactiveHappens`,
  `SwitchoverFlushLevel.CompletedButInactive`).
  These two need a run whose flushes survive; between requests neither can happen
  (`SwitchoverCommitLevel.AbortedCanaryIsFinal`, `SwitchoverCommitLevel.CompletedIsActive`).
- A failed preflight makes its binding ACTIVE whatever it was before, a RETIRED one included
  (`BindingProofs.FailedPreflightRevives`). A RETIRED binding stays so exactly while its plan has
  committed no run (`BindingProofs.RetiredStaysIff`), and one active binding remains exactly when
  no other was active; otherwise only the unique index stops the second one
  (`BindingProofs.SwitchoverKeepsOneActiveIff`).
- An environment can be READY with a FAILED binding (`BindingProofs.ReadyWithFailedBinding`): its
  readiness is the outcome of the last version accepted for it, of whatever capability
  (`BindingProofs.ReadinessIsTheLastCheck`).
- An idempotency key whose request dies after the commit inside `execute()` answers "in
  progress" for ever (`IdempotencyProofs.CrashAfterInnerCommitWedges`, `IdempotencyProofs.AnswerableIff`).
- A rollback inside `execute()` discards a reservation that is not yet committed, so the same key
  executes again and both executions leave committed effects (`IdempotencyProofs.TwoExecutionsCommit`).
  The key of a committed execution passes to another one exactly when that happened
  (`IdempotencyProofs.KeyPassesOnIff`), and a second execution's effects join those of a
  committed one exactly when it lost its reservation or an unfinished or committed rival did
  (`IdempotencyProofs.ExecutesTwiceIff`).
- A binding linked to two secret names of one kind can be activated on one secret and be given
  the other at run time (`SecretProofs.TwoNamesHappen`, `SecretProofs.TwoNamesCanDisagree`).
  Both choose the same secret exactly when the first and the last linked secret that resolve to
  the kind are versions of one name (`SecretProofs.ChoicesAgreeIff`).
- Repair attempts whose request dies do not count against the retry budget, so any number of them
  fits into it (`MigrationProofs.DeathsAreFree`); all attempts stay within the budget exactly when
  the counter and the deaths together do (`MigrationProofs.BudgetWithDeaths`).
- A user whose last connection was pruned stays listed as online
  (`ConnectionProofs.OnlineWithNobodyThere`): over every run a user is listed with nobody there
  exactly when the last thing that happened to the user's connections was a round of failed sends
  that left none (`ConnectionProofs.OnlineMeans`).
- Closing one of several connections removes the user from all rooms; the user stays online
  exactly when there was another connection (`ConnectionProofs.OneTabClosesAllRooms`).
- Usage recorded by overlapping transactions is lost, and no constraint of the meter table
  prevents it (`UsageProofs.OverlapLosesFirstWrite`, `UsageProofs.WriteTotal`).
- A quota whose hard limit is zero or negative shows zero utilization although it blocks everything
  from that limit on; the gauge and the block agree exactly for a positive limit or one not
  reached (`UsageProofs.FullMeansBlocked`).
- Merging logs batch by batch need not equal one big merge. It does for every stream in which an
  id keeps its timestamp (`LogStreaming.StreamingEqualsBatch`); when an entry comes back with another
  one, there is a stream for every positive limit on which it does not, and the streams of that
  shape on which it does are characterised (`LogStreaming.ChangedTimestampBreaksStreaming`,
  `LogStreaming.ReturningEntryIff`). With a negative limit it fails on streams whose ids do keep their
  timestamps (`LogStreaming.NegativeLimitBreaksStreaming`, `LogStreaming.LimitsThatStream`).

## Model

| member | source | states |
|---|---|---|
| SwitchoverCommitLevel.CommitSafety | backend/src/postbase/control_plane/service.py:1455-1622 | over every history of executes, failures, resumes and rollbacks of one plan: the provider is the original one, or the target on a COMPLETED plan; a stored previous provider is the original; FAILED leaves the original ACTIVE; the phases are a prefix of the order; COMPLETED has all five and `completed_at` |
| SwitchoverCommitLevel.RollbackRestores | backend/src/postbase/control_plane/service.py:1647-1693 | a manual rollback after any finished run puts the original provider back, ACTIVE, and no later request changes that |
| SwitchoverCommitLevel.CanaryAndHealthSafety | backend/src/postbase/control_plane/service.py:1481-1552 | a run commits the target if and only if it started with no phase recorded, its preflight passed, no checkpoint was unhealthy, and the target was ready with its prerequisites; the record then holds every configured checkpoint, all healthy |
| SwitchoverCommitLevel.TargetWasEarned | backend/src/postbase/control_plane/service.py:1455-1622 | whenever the binding is committed on the target, one single run of the history put it there and met all those conditions itself |
| SwitchoverCommitLevel.AbortedCanaryIsFinal | backend/src/postbase/control_plane/service.py:1512-1525 | after an aborted canary no later history of the plan commits the target |
| SwitchoverCommitLevel.CompletedMeaning | backend/src/postbase/control_plane/service.py:1570-1622 | the whole row of a COMPLETED plan, and: it is on the target exactly when no earlier run failed with `stage_target` recorded |
| SwitchoverCommitLevel.CompletedIsActive | backend/src/postbase/control_plane/service.py:1527-1580 | between requests, a COMPLETED plan has an ACTIVE binding |
| SwitchoverCommitLevel.ResumeReachesTarget | backend/src/postbase/control_plane/service.py:1455-1479 | a run that will not fail ends on the target exactly when `stage_target` is not yet recorded |
| SwitchoverCommitLevel.ResumeCanCompleteOnOldProvider | backend/src/postbase/control_plane/service.py:1581-1622 | any plan whose canary aborts, executed twice, is COMPLETED on its old provider |
| SwitchoverCommitLevel.CommitHistoryIsFlushHistory | backend/src/postbase/control_plane/service.py:1381-1644 | every history seen between requests is a history of the flush-level machine |
| SwitchoverFlushLevel.CrashSafety | backend/src/postbase/control_plane/service.py:1397-1479 | if any flush may be a run's last: staging never takes the target for the previous provider, a binding off its original provider has `required` set or is COMPLETED, and a required checkpoint can be rolled back to the original |
| SwitchoverFlushLevel.RunOutcome | backend/src/postbase/control_plane/service.py:1409-1622 | one run from any row a crash may leave: it fails exactly when a phase still to do goes wrong and then restores the original; otherwise its last row is determined by whether it staged the target itself and whether validation was already recorded |
| SwitchoverFlushLevel.CompletedOnTarget | backend/src/postbase/control_plane/service.py:1409-1580 | over every interrupted history: COMPLETED is on the target if and only if no run failed after staging |
| SwitchoverFlushLevel.InterruptedRunsConverge | backend/src/postbase/control_plane/service.py:1409-1424 | a history of interruptions that completes active and without a staged failure ends in the same row as one uninterrupted run |
| SwitchoverFlushLevel.AbortedCanaryOnTarget | backend/src/postbase/control_plane/service.py:1418-1424 | a run ends on the target with an aborted canary on record exactly when it restages after an earlier run flushed that canary |
| SwitchoverFlushLevel.AbortedCanaryCanReachTarget | backend/src/postbase/control_plane/service.py:1418-1525 | a history in which that happens |
| SwitchoverFlushLevel.CompletedButInactive | backend/src/postbase/control_plane/service.py:1418-1552 | a run completes with an inactive binding exactly when it restages after an earlier run recorded the validation |
| SwitchoverFlushLevel.CompletedButInactiveHappens | backend/src/postbase/control_plane/service.py:1418-1580 | a history in which that happens |
| SwitchoverFlushLevel.StateAssertionNeverFires | backend/src/postbase/control_plane/service.py:133-140 | the assertion made after a completed run holds over every interrupted history |
| SwitchoverOutcome.FirstRun | backend/src/postbase/control_plane/service.py:1381-1644 | from the request for a plan to the end of its first run, the whole row: COMPLETED on the target asked for exactly when the preflight passes, no rate above the threshold was given and the target validates; otherwise FAILED on the old provider with the record of how far it came |
| SwitchoverOutcome.FirstRunFlushes | backend/src/postbase/control_plane/service.py:1426-1580 | the seven rows that a first run flushes when it completes, column by column |
| SwitchoverOutcome.ResumeFailsIff | backend/src/postbase/control_plane/service.py:1428-1622 | from any row a crash may leave, a run fails exactly when the preflight, the canary or the validation is still to do and goes wrong; otherwise it ends COMPLETED, on the target exactly when it had to stage it, with the retirement its strategy asks for |
| SwitchoverOutcome.FirstFlush | backend/src/postbase/control_plane/service.py:1409-1427 | the first row that a recovering run flushes: the provider of the checkpoint, ACTIVE, and everything recorded but staging, in order |
| SwitchoverOutcome.FirstFlushUnrecovered | backend/src/postbase/control_plane/service.py:1410-1427 | and without a required checkpoint: the row it found, RUNNING |
| SwitchoverOutcome.RollbackMeans | backend/src/postbase/control_plane/service.py:1658-1679 | the manual rollback: possible exactly with a stored provider, which it puts back |
| SwitchoverModel.CreatePlan | backend/src/postbase/control_plane/service.py:1264-1378 | a plan is created exactly when strategy and numbers are allowed, target and capability exist, the target supports what the capability requires and the current provider offers, and all four preflight checks pass; it starts PENDING with nothing recorded, no checkpoint and retirement pending, and leaves the binding alone; each refusal says which of these failed, with the missing operations |
| SwitchoverModel.CanaryRecord | backend/src/postbase/control_plane/service.py:1482-1525 | every recorded checkpoint has its number, the traffic of the plan, the error rate given, or none, and is healthy exactly when that is within the threshold; all of them are recorded, or the single unhealthy one of an abort |
| SwitchoverModel.CanaryAbortsIff | backend/src/postbase/control_plane/service.py:1485-1525 | the canary of a plan that could be created aborts exactly when a rate above its threshold was given |
| SwitchoverModel.PhasesInOrder | backend/src/postbase/control_plane/service.py:113-120 | running the phase list is running the five phases in the source's order |
| SwitchoverEngine.EvaluateCheckpoints | backend/src/postbase/control_plane/service.py:1488-1514 | the checkpoint loop: the given rate against the threshold decides, and every checkpoint carries its number, the traffic and that rate |
| SwitchoverEngine.FilterOut | backend/src/postbase/control_plane/service.py:1420-1420 | the recovery block drops exactly the given phase and keeps the order of the others |
| SwitchoverEngine.RestoreCheckpoint | backend/src/postbase/control_plane/service.py:1409-1424 | the recovery block on the rows, flush included |
| SwitchoverEngine.StagePhase | backend/src/postbase/control_plane/service.py:1455-1479 | staging on the rows: checkpoint first, then the target in PENDING_VALIDATION |
| SwitchoverEngine.ValidatePhase | backend/src/postbase/control_plane/service.py:1527-1552 | validation on the rows, or the exception |
| SwitchoverEngine.RestoreAfterFailure | backend/src/postbase/control_plane/service.py:1581-1607 | the exception handler on the rows |
| SwitchoverEngine.ExecuteSwitchoverPlan | backend/src/postbase/control_plane/service.py:1381-1644 | one request flushes exactly the rows of the run of the model, in order, and commits the last; a plan that may not run is left alone with the right error |
| SwitchoverEngine.RollbackSwitchoverPlan | backend/src/postbase/control_plane/service.py:1647-1693 | the manual rollback in place, or the refusal without a checkpoint |
| IdempotencyProofs.AtMostOneExecutionCommits | backend/src/postbase/control_plane/api.py:173-202 | over every interleaving with failures and crashes: at most one request per key commits effects without having lost its reservation, and whoever has rolled back can only report an error |
| IdempotencyProofs.SuccessIsUnique | backend/src/postbase/control_plane/api.py:194-202 | two successes under one key are the same request with the same response |
| IdempotencyProofs.ReplayIsExact | backend/src/postbase/platform/idempotency.py:37-67 | every replay is the response of one successful request with the same key and hash, and the replayed request itself neither executed nor committed |
| IdempotencyProofs.LookupIsFinal | backend/src/postbase/platform/idempotency.py:46-67 | a request that meets a committed row gets conflict, in-progress or the stored response as the row says, and never executes whatever happens later |
| IdempotencyProofs.CollisionFindsRow | backend/src/postbase/control_plane/api.py:181-192 | after a unique-key collision the second lookup always finds a row |
| IdempotencyProofs.ReplayKeepsRows | backend/src/postbase/domain/models.py:229-236 | a committed row never disappears or changes owner or hash, and a stored response never changes |
| IdempotencyProofs.EnteringMeans | backend/src/postbase/platform/idempotency.py:37-89 | a check without a row goes on; a reservation waits for an uncommitted one, collides with a committed row, and otherwise holds the key |
| IdempotencyProofs.ExecutingMeans | backend/src/postbase/control_plane/api.py:173-194 | the first commit inside `execute()` makes the reservation a row without a response, unless a rollback has discarded it |
| IdempotencyProofs.EndingMeans | backend/src/postbase/control_plane/api.py:194-202 | a result is stored as it is with the row of the key; an exception or a crash stores nothing and gives back a key only held |
| IdempotencyProofs.AnswerableIff | backend/src/postbase/platform/idempotency.py:58-62 | a committed reservation without a response can still be answered exactly when its request is alive and has not rolled back |
| IdempotencyProofs.CrashAfterInnerCommitWedges | backend/src/postbase/control_plane/api.py:194-201 | a crash between the inner commit and the stored response leaves a key that nothing can answer |
| IdempotencyProofs.KeyPassesOnIff | backend/src/postbase/control_plane/api.py:194-201 | after any history, the key of a committed execution can pass to another one that commits exactly when its reservation was lost, that is, rolled back before it was first committed |
| IdempotencyProofs.ExecutesTwiceIff | backend/src/postbase/control_plane/api.py:194-201 | after any history, a second request's effects are or can still be committed beside those of a committed one exactly when it lost its reservation, or another request of the key lost one and has committed or is still executing |
| IdempotencyProofs.TwoExecutionsCommit | backend/src/postbase/control_plane/api.py:194-201 | a history in which two requests of one key and payload both commit effects |
| IdempotencyProofs.RolledBackExecutionFreesKey | backend/src/postbase/control_plane/api.py:194-201 | after a rollback inside `execute()` the key is free although effects were committed |
| IdempotencyService.Server.CheckReplayOrConflict | backend/src/postbase/platform/idempotency.py:28-67 | the lookup on the shared table |
| IdempotencyService.Server.ReserveKey | backend/src/postbase/platform/idempotency.py:69-89 | the reservation: taken exactly when no committed row has the key |
| IdempotencyService.Server.PersistSuccess | backend/src/postbase/platform/idempotency.py:91-102 | the stored response together with the final commit |
| IdempotencyService.Server.HandleRequest | backend/src/postbase/control_plane/api.py:140-202 | a request among any others, which may act whenever it awaits: it executes exactly when no committed row is there at its check nor when its insert goes through; a row there is answered from as it then is, through the collision handler if the insert hit it; a success is stored |
| IdempotencyService.Server.AnswerCollision | backend/src/postbase/control_plane/api.py:181-192 | after the unique constraint fired, the second check always has an answer, whatever others did in between |
| SecretProofs.VersionsExactly | backend/src/postbase/control_plane/service.py:625-797 | over every history, the n rows of a name carry the versions 1..n once each, share provider and kind, and exactly the row with version n is active |
| SecretProofs.RotateShape | backend/src/postbase/control_plane/service.py:714-747 | rotating any version of a linked name appends an active version, one higher, with the new value, valid and without expiry; of the rows that were there only the named one and the active one change, and they only stop being active |
| SecretProofs.RotateThenRevoke | backend/src/postbase/control_plane/service.py:680-797 | on every reachable store, rotating and then revoking the new version resolves, from every version, to what resolved before |
| SecretProofs.CreateMeans | backend/src/postbase/control_plane/service.py:638-664 | a name can be created exactly when it has no active version, and starts as version 1, active, valid and without expiry |
| SecretProofs.RotateRefusedIff | backend/src/postbase/control_plane/service.py:689-700 | a rotation is refused exactly when no version of the secret is linked to a binding, and leaves the store as it was; so does one that fails |
| SecretProofs.RevokeMeans | backend/src/postbase/control_plane/service.py:784-785 | a revocation marks its row and changes no other |
| SecretProofs.ResolveMeans | backend/src/postbase/control_plane/service.py:1873-1892 | on every reachable store, in terms of the columns: resolution finds the row of the same environment and name that is not revoked, not expired and of the highest version among those |
| SecretProofs.ResolveIsHighestValid | backend/src/postbase/control_plane/service.py:1873-1892 | on every reachable store, the query from any version of a name finds its highest version that is neither revoked nor expired, or nothing when there is none |
| SecretProofs.RotationReachesEveryAnchor | backend/src/postbase/platform/resolver.py:61-81 | right after a rotation every version of the name resolves to the new one |
| SecretProofs.RevokeFallsBack | backend/src/postbase/control_plane/service.py:776-797 | a revocation takes exactly that row out of resolution; the next lower valid version takes over |
| SecretProofs.ActivationSeesRuntimeKinds | backend/src/postbase/control_plane/service.py:1895-1915 | the kinds the activation check finds are exactly the keys of `resolved_secrets` at the same instant, in whatever order the links are listed |
| SecretProofs.ChoicesAgreeIff | backend/src/postbase/platform/resolver.py:60-81 | the check and the run time choose the same secret of a kind exactly when the first linked secret that resolves to it, in the one order, and the last, in the other, are versions of one name |
| SecretProofs.OneNamePerKindAgrees | backend/src/postbase/control_plane/service.py:1895-1915 | so they agree on every kind of which one name is linked |
| SecretProofs.TwoNamesHappen | backend/src/postbase/platform/resolver.py:52-81 | a history that leads there: two names of one kind created and linked to one binding |
| SecretProofs.TwoNamesCanDisagree | backend/src/postbase/platform/resolver.py:60-81 | with two names of one kind they can choose different secrets |
| SecretService.SecretStore.RotateSecretRef | backend/src/postbase/control_plane/service.py:680-773 | the rotation in place; a failed one leaves every row as it was |
| SecretService.SecretStore.ResolveLatestValid | backend/src/postbase/control_plane/service.py:1873-1892 | the ordered query computes the resolution of the model |
| SecretService.SecretStore.ResolveActiveBinding | backend/src/postbase/platform/resolver.py:60-81 | the loop fills the map with the last secret of each kind |
| SecretService.SecretStore.RequiredSecretValidationDetail | backend/src/postbase/control_plane/service.py:1895-1915 | the missing kinds are exactly the required ones that no linked secret provides |
| SecretService.SecretStore.ActivateThenResolve | backend/src/postbase/platform/resolver.py:60-91 | the activation check passes exactly when the run-time resolution at that instant has every required kind |
| BindingProofs.AtMostOneActive | backend/src/postbase/control_plane/service.py:1736-1839 | over every history of seeding, new versions and status changes, two ACTIVE rows of one environment and capability are the same row |
| BindingProofs.ChainEnds | backend/src/postbase/control_plane/service.py:1736-1839 | a supersession chain visits ever smaller ids of one environment and capability and ends at a row that supersedes nothing |
| BindingProofs.EveryChainEnds | backend/src/postbase/control_plane/service.py:1736-1839 | so does every chain of every reachable table |
| BindingProofs.RetiredIsFinal | backend/src/postbase/control_plane/service.py:316-333 | a RETIRED binding stays RETIRED through all operations of the binding store |
| BindingProofs.SetStatusMeans | backend/src/postbase/control_plane/service.py:1979-2061 | a status is set exactly when it is unchanged or one of the transitions listed pair by pair and, for ACTIVE, provider and prerequisites are there and no other row of the slot is ACTIVE; then that status alone changes; a refusal is the first of these that fails |
| BindingProofs.CreateVersionMeans | backend/src/postbase/control_plane/service.py:1748-1823 | the new version, the row it supersedes and what happens to it, in terms of the secrets, the missing kinds and the region; no other row changes |
| BindingProofs.SeedMeans | backend/src/postbase/control_plane/service.py:591-622 | seeding appends ACTIVE rows that supersede nothing, one for each capability without a row, with the provider of its entry, and leaves no such capability out |
| BindingProofs.SwitchoverKeepsOneActiveIff | backend/src/postbase/domain/models.py:107-115 | a plan that has finished a run makes its binding ACTIVE, so one active binding remains exactly when no other was active; guaranteed when it was ACTIVE at the start |
| BindingProofs.RetiredStaysIff | backend/src/postbase/control_plane/service.py:1581-1607 | a RETIRED binding stays RETIRED under a plan exactly while the plan has committed no run |
| BindingProofs.FailedPreflightRevives | backend/src/postbase/control_plane/service.py:1581-1607 | one failed preflight makes a RETIRED binding ACTIVE |
| BindingProofs.ReadinessIsTheLastCheck | backend/src/postbase/control_plane/service.py:1798-1823 | over every history, an environment is READY exactly when the last version accepted for it passed its secret-kind and region checks |
| BindingProofs.ReadyWithFailedBinding | backend/src/postbase/control_plane/service.py:1798-1823 | a history that leaves an environment READY with a FAILED binding |
| BindingService.BindingStore.QueryActive | backend/src/postbase/control_plane/service.py:1999-2010 | the conflict query finds an ACTIVE row of the slot other than the given one, if there is one |
| BindingService.BindingStore.SeedEnvironmentBindings | backend/src/postbase/control_plane/service.py:591-622 | seeding in place |
| BindingService.BindingStore.CreateBindingVersion | backend/src/postbase/control_plane/service.py:1736-1839 | refused without a change exactly when a secret to link is missing or of another environment; otherwise the new version in place, ACTIVE exactly when no required kind is missing and the region is supported, then with the superseded row DEPRECATED; the environment becomes READY or DEGRADED accordingly |
| BindingService.BindingStore.SetBindingStatus | backend/src/postbase/control_plane/service.py:1979-2061 | the status change in place, with each refusal in the source's order |
| MigrationProofs.LifecycleCoupled | backend/src/postbase/control_plane/service.py:885-1127 | over every history: the definition is active iff the migration is APPLIED, canceled iff CANCELED, pending otherwise; the log reads FAILED* then at most one APPLIED, which is there iff the migration is APPLIED; drifted, non-empty entities and a severity go together |
| MigrationProofs.ApplyMeans | backend/src/postbase/control_plane/service.py:935-1028 | an apply of a migration neither APPLIED nor CANCELED ends APPLIED exactly when there is no table to create or its DDL succeeds, and otherwise FAILED, drifted, critical, with the text of the error, the definition pending and a FAILED execution; all columns, and the answer |
| MigrationProofs.RetryMeans | backend/src/postbase/control_plane/service.py:1031-1055 | the same for a retry, which only a FAILED migration gets |
| MigrationProofs.CancelMeans | backend/src/postbase/control_plane/service.py:1058-1098 | any migration but an APPLIED one can be canceled, and what that writes |
| MigrationProofs.CreatedMeans | backend/src/postbase/control_plane/service.py:885-912 | a new table is APPLIED at once in development and QUEUED elsewhere |
| MigrationProofs.RefreshMeans | backend/src/postbase/control_plane/service.py:1130-1193 | the report entity by entity, its severity, and when it clears the error |
| MigrationProofs.ReconcileMeans | backend/src/postbase/control_plane/service.py:1196-1241 | each way a reconciliation can go and all it writes |
| MigrationProofs.TerminalStates | backend/src/postbase/control_plane/service.py:935-1098 | APPLIED and CANCELED never change again, nor do definition and log |
| MigrationProofs.LogGrows | backend/src/postbase/control_plane/service.py:1101-1127 | a committed log entry is never changed or removed |
| MigrationProofs.StateAssertionIff | backend/src/postbase/control_plane/service.py:143-148 | after any history, the asserted invariant holds of what the next request commits exactly when: for a refresh of an APPLIED migration, table and columns are there; for a reconciliation, they are there before, or after a repair that the budget allows and the DDL does not refuse; and it holds after every apply |
| MigrationProofs.AssertionBreaks | backend/src/postbase/control_plane/service.py:1179-1193 | a history that breaks it: an apply that succeeds and a refresh that misses the table |
| MigrationProofs.InSyncMeaning | backend/src/postbase/control_plane/service.py:1140-1193 | a refresh of an APPLIED migration says in sync exactly when namespace, definition, table and every expected column exist, and it names exactly the missing columns |
| MigrationProofs.RepairBudget | backend/src/postbase/control_plane/service.py:1196-1241 | with a fixed budget the committed repair attempts of a whole history stay within it, and the counter on the row is their number |
| MigrationProofs.BudgetWithDeaths | backend/src/postbase/control_plane/service.py:1196-1241 | all attempts begun, those of dying requests included, stay within the budget plus the number of deaths; from a fresh row they stay within the budget itself exactly when the counter and the deaths together do |
| MigrationProofs.DeathsAreFree | backend/src/postbase/control_plane/service.py:1212-1217 | any number of dying attempts fits into a budget not yet used up |
| MigrationProofs.RepairOutcome | backend/src/postbase/control_plane/service.py:1196-1241 | what each reconciliation call leaves: in sync as the tables then are, the repair error with the drift still reported, or the exhausted budget |
| MigrationService.Session.ApplySchemaMigration | backend/src/postbase/control_plane/service.py:935-1028 | the apply in place, including the failure that rolls back and writes itself afresh |
| MigrationService.Session.RetrySchemaMigration | backend/src/postbase/control_plane/service.py:1031-1055 | the retry, which commits PENDING before it applies |
| MigrationService.Session.CancelSchemaMigration | backend/src/postbase/control_plane/service.py:1058-1098 | the cancel in place |
| MigrationService.Session.DetectDrift | backend/src/postbase/control_plane/service.py:1130-1176 | the drift detection step by step gives the report of the model |
| MigrationService.Session.ReconcileMigration | backend/src/postbase/control_plane/service.py:1196-1241 | the reconciliation in place, creating the table exactly when an attempt is due and the metadata exists |
| TokenRefresh.SingleFlight | frontend/src/lib/api-client.ts:90-163 | at every event boundary a refresh is in flight iff `isRefreshing`, and without one the queue is empty |
| TokenRefresh.SettledExactlyOnce | frontend/src/lib/api-client.ts:93-160 | every failed response is either waiting once or settled once; with no refresh in flight all are settled |
| TokenRefresh.SettledByItsRefresh | frontend/src/lib/api-client.ts:110-157 | whoever waited is settled with the outcome of the very refresh it waited on |
| TokenRefresh.OneRefreshPerRequest | frontend/src/lib/api-client.ts:109-120 | over every history all refreshes were started by different requests |
| TokenRefresh.QueueIsFirstInFirstOut | frontend/src/lib/api-client.ts:93-102 | requests that fail during a refresh queue in order of arrival and are settled in that order, the starter last |
| TokenRefresh.HistoryGrows | frontend/src/lib/api-client.ts:93-102 | what was settled stays settled |
| TokenRefresh.UnauthorizedMeans | frontend/src/lib/api-client.ts:107-132 | a 401 rejects a request already retried, queues others during a refresh, marks and rejects when nobody is signed in, and otherwise marks and starts a refresh |
| TokenRefresh.RefreshEndMeans | frontend/src/lib/api-client.ts:133-160 | the end of a refresh settles the queue in order and then its starter, with the new token, which is kept with the new refresh token, or with the reason, and then no token is kept |
| TokenRefresh.WaiterMayWaitAgain | frontend/src/lib/api-client.ts:110-120 | a waiter is not marked: refused again after a good refresh, it starts another one itself |
| TokenRefresh.ApiClient.OnUnauthorized | frontend/src/lib/api-client.ts:104-132 | the interceptor up to its await |
| TokenRefresh.ApiClient.ProcessQueue | frontend/src/lib/api-client.ts:93-102 | the loop settles the queue in order and empties it |
| TokenRefresh.ApiClient.OnRefreshSucceeds | frontend/src/lib/api-client.ts:133-148 | the end of a good refresh |
| TokenRefresh.ApiClient.OnRefreshFails | frontend/src/lib/api-client.ts:149-159 | the end of a failed refresh |
| LogMerge.MergeObservabilityLogs | frontend/src/lib/observability.ts:3-15 | the map filled by the loop, sorted and cut; the result has unique ids, is newest first and no longer than the limit |
| LogMerge.MergeIsTopOfUnion | frontend/src/lib/observability.ts:8-14 | a merge is the top of the union: one entry for each id that occurs, namely the last one given for it; nothing cut is newer than anything shown, and something is cut only when the limit is reached |
| LogStreaming.StreamingEqualsBatch | frontend/src/lib/observability.ts:3-15 | merging A and then B with the same limit shows what one merge of A followed by B shows, whenever equal ids have equal timestamps; distinct ids may share one |
| LogMerge.SortSorts | frontend/src/lib/observability.ts:12-13 | the stable sort returns the same entries, newest first |
| LogOrder.TiesByArrival | frontend/src/lib/observability.ts:8-14 | entries with the same timestamp are shown in the order in which their ids first arrived |
| LogStreaming.LimitsThatStream | frontend/src/lib/observability.ts:3-14 | the law holds on all streams in which ids keep their timestamps exactly for the limits that are not negative |
| LogStreaming.NegativeLimitBreaksStreaming | frontend/src/lib/observability.ts:14-14 | for every negative limit a stream on which the law fails |
| LogStreaming.ReturningEntryIff | frontend/src/lib/observability.ts:8-14 | one place is left, x competes with y for it and then comes back: stream and batch agree unless x returns older than the y it had kept out, or level with the y that had kept it out |
| LogStreaming.ChangedTimestampBreaksStreaming | frontend/src/lib/observability.ts:9-14 | for every positive limit, they agree in all such streams exactly when x comes back with its own timestamp |
| ConnectionProofs.RoomsOverRuns | backend/src/apps/websocket/manager.py:58-96 | over every run with arbitrary send failures no stored room is empty, and a disconnect takes its user out of every room and leaves all other memberships alone |
| ConnectionProofs.DisconnectRooms | backend/src/apps/websocket/manager.py:63-76 | the rooms after a disconnect, independent of the order of its loop and of failed sends in it |
| ConnectionProofs.RegisteredMeans | backend/src/apps/websocket/manager.py:58-127 | a connection is registered, with its latest key, exactly when it was opened and since then neither closed nor failed by a send; no send goes to any other |
| ConnectionProofs.BroadcastOrderIsFree | backend/src/apps/websocket/manager.py:129-149 | a broadcast tries one send on each registered connection of each addressed user and leaves the same registrations whatever the order of users |
| ConnectionProofs.MessagesMean | backend/src/apps/websocket/manager.py:118-149 | a message to a user, or to everyone, tries exactly their registered connections, drops exactly those that are down and changes nothing else |
| ConnectionProofs.BroadcastRoomMeans | backend/src/apps/websocket/manager.py:129-144 | and a message to a room the connections of its members but for the excluded one |
| ConnectionProofs.JoinAndLeaveMean | backend/src/apps/websocket/manager.py:82-96 | joining adds the user and tells all members, the new one included; leaving takes the user out, deletes a room left empty and tells those who remain |
| ConnectionProofs.ConnectMeans | backend/src/apps/websocket/manager.py:58-61 | a connection is registered with its key in place of an earlier one, and nothing is sent |
| ConnectionProofs.OnlineMeans | backend/src/apps/websocket/manager.py:213-214 | over every run: a user is listed as online exactly when a connection of the user stands, or when the last thing that happened to the user's connections was a round of failed sends that left none |
| ConnectionProofs.SendKeepsOnlineIff | backend/src/apps/websocket/manager.py:118-127 | after a round everybody listed as online has a connection exactly when no addressed user lost all of them |
| ConnectionProofs.GhostStaysOnline | backend/src/apps/websocket/manager.py:213-214 | a user whose last connection was pruned stays online through every run that neither connects nor disconnects that user |
| ConnectionProofs.OnlineWithNobodyThere | backend/src/apps/websocket/manager.py:213-214 | one connection and one failed send suffice |
| ConnectionProofs.OneTabClosesAllRooms | backend/src/apps/websocket/manager.py:63-76 | after a disconnect, in any order of rooms and with any failed sends, the user is in no room and is online exactly when another connection of that user was registered |
| ConnectionService.ConnectionManager.SendPersonalRaw | backend/src/apps/websocket/manager.py:118-127 | one send for each registered connection of the user, and exactly the failed ones are removed |
| ConnectionService.ConnectionManager.SendToEach | backend/src/apps/websocket/manager.py:129-149 | the broadcast loop is one round of the model, and the sends tried are those of its history |
| ConnectionService.ConnectionManager.Connect | backend/src/apps/websocket/manager.py:58-61 | registration in place |
| ConnectionService.ConnectionManager.JoinRoom | backend/src/apps/websocket/manager.py:82-87 | joining and telling the room |
| ConnectionService.ConnectionManager.LeaveRoom | backend/src/apps/websocket/manager.py:89-96 | leaving, deleting an empty room, telling the rest |
| ConnectionService.ConnectionManager.Disconnect | backend/src/apps/websocket/manager.py:63-76 | the disconnect with its loop over all rooms, each once |
| UsageProofs.UsageIsConserved | backend/src/postbase/platform/usage.py:11-40 | the meters of an environment sum to what was there plus what was recorded for it, over any calls for any environments |
| UsageProofs.EachMeterAccumulates | backend/src/postbase/platform/usage.py:19-37 | one call after another, every key keeps a single row holding the sum of its increments |
| UsageProofs.WriteTotal | backend/src/postbase/platform/usage.py:37-39 | a write counts its increment in full exactly when its row still has the value that was read |
| UsageProofs.InterleavedBalance | backend/src/postbase/platform/usage.py:11-40 | for any interleaving of reads and writes the total is what was recorded less what was overwritten |
| UsageProofs.OneByOneIsAtomic | backend/src/postbase/platform/usage.py:19-39 | transactions that read and write one after another make the account of the atomic calls, and lose nothing |
| UsageProofs.OverlapLosesFirstWrite | backend/src/postbase/platform/usage.py:37-39 | two overlapping calls leave only the later one |
| UsageProofs.RefusedIff | backend/src/postbase/control_plane/service.py:196-220 | an action is refused exactly from one usage value on, the hard limit for the controlled actions and the lower of the two limits for all others |
| UsageProofs.AuthorizeMeans | backend/src/postbase/control_plane/service.py:188-220 | the refusal by names and defaults: hard limit 1200, soft limit 1000 except for draining and recovering webhooks and for migrations |
| UsageProofs.QuotaMeans | backend/src/postbase/control_plane/service.py:155-193 | state, flags, degradation and utilization by the limits of the policy and their defaults |
| UsageProofs.QuotaOnlyTightens | backend/src/postbase/control_plane/service.py:155-185 | more usage never relaxes state, flags or utilization, for thresholds in any order |
| UsageProofs.FullMeansBlocked | backend/src/postbase/control_plane/service.py:165-169 | full utilization and the block coincide exactly for a positive hard limit or one not reached |
| UsageProofs.RefusedStaysRefused | backend/src/postbase/control_plane/api.py:229-239 | with non-negative increments an action once refused is refused for ever |
| UsageProofs.ReopenedIff | backend/src/postbase/control_plane/api.py:229-239 | with any increments it is open later exactly when the total is then below its ceiling |
| UsageService.Metering.RecordUsage | backend/src/postbase/platform/usage.py:11-40 | the row found or created and incremented in place; the environment's total grows by the increment and no other total moves |
| UsageService.Metering.UsageTotal | backend/src/postbase/control_plane/api.py:229-231 | the sum of the environment's meters |
| UsageService.Metering.AuthorizeMutation | backend/src/postbase/control_plane/api.py:229-239 | the refusal, exactly when the total has reached the action's ceiling |
| Overview.Partition | backend/src/postbase/control_plane/service.py:2206-2236 | counting rows environment by environment counts every row of these environments once |
| Overview.BindingsAndSecretsAddUp | backend/src/postbase/control_plane/service.py:2194-2274 | the project's active, degraded and secret counts are the sums over its environment rows, and active plus degraded is the number of bindings |
| Overview.SwitchoversCountedOnce | backend/src/postbase/control_plane/service.py:2211-2225 | every switchover of the project's bindings is counted in exactly one environment |
| Overview.UsageAddsUp | backend/src/postbase/control_plane/service.py:2209-2271 | the project's usage is the sum of the environments' usage |
| Overview.AuditsAddUp | backend/src/postbase/control_plane/service.py:2184-2210 | the environments' audit counts are at most the project's, and equal exactly when every entry names one of them |
| Overview.BindingColumnsMean | backend/src/postbase/control_plane/service.py:2194-2203 | an environment's active bindings are those in ACTIVE, its degraded ones those in any other status |
| Overview.SecretColumnsMean | backend/src/postbase/control_plane/service.py:2207-2208 | its secrets and keys are those in use |
| Overview.MigrationColumnsMean | backend/src/postbase/control_plane/service.py:2227-2236 | its pending migrations are those QUEUED or PENDING, its drifted ones those marked drifted |
| Overview.SwitchoverColumnMeans | backend/src/postbase/control_plane/service.py:2211-2226 | its switchovers are the plans whose binding it has |
| Overview.UsageColumnsMean | backend/src/postbase/control_plane/service.py:2209-2243 | its usage is the total of its meters, and its quota is judged by its own policy |
| Overview.AuditColumnsMean | backend/src/postbase/control_plane/service.py:2184-2210 | audit entries are today's of the project, and in a row those that name the environment |
| Overview.NoEnvironmentsNoAudits | backend/src/postbase/control_plane/service.py:2162-2193 | a project without environments shows no audit entries, whatever there are |
| Overview.EnvironmentsMean | backend/src/postbase/control_plane/service.py:2266-2268 | the project's environments and the active ones among them |
| Overview.CountHealth | backend/src/postbase/control_plane/service.py:2194-2203 | one pass over the bindings gives each environment its active and degraded count |
| Overview.BuildProjectOverview | backend/src/postbase/control_plane/service.py:2145-2274 | the overview built from the selected rows is the one read off the whole tables |

## Left out

- SwitchoverEngine.ExecuteSwitchoverPlan: the execution state always has the keys that creating a plan writes; filling in missing keys of older states is not modelled, nor are audit events, timestamps and detail texts. A missing binding row (404) is left to the caller.
- Two plans on one binding, and other operations on a binding during its plan: all single-plan results assume the binding is changed by its plan alone.
- Requests without the Idempotency-Key header call `execute()` directly and have no part in the protocol. The request hash is taken to be injective.
- A session that waits for another one's uncommitted index entry takes no step until that session ends.
- What `execute()` does is reduced to its commits and rollbacks; after a rollback of its session it is assumed to raise, as every error path of the control plane does.
- Two concurrent writers on the binding or secret tables: each operation there is one step, so the unique index that would stop the second writer is not needed and not modelled.
- BindingService.BindingStore.CreateBindingVersion: the missing kinds are given, as SecretStore.RequiredSecretValidationDetail computes them; the status of the environment, which this operation writes together with the readiness state but lifecycle operations write too, is not modelled, nor are texts and timestamps.
- MigrationProofs.BudgetWithDeaths: a DDL error that also poisons the transaction, so that nothing of the request can be committed, is one of the deaths.
- SwitchoverModel.CreatePlan: provider rows and profiles of a binding that names no existing provider raise, which is not modelled.
- BindingProofs.RetiredIsFinal: covers the operations of the binding store; a switchover can revive a RETIRED binding, which FailedPreflightRevives states.
- Table definitions and namespaces are not deleted by these operations; a missing definition or namespace appears only as a given state.
- MigrationService.Session.DetectDrift: the affected entities are a set, so their order in the report is not modelled.
- SecretService.SecretStore.RotateSecretRef: the readiness text written to the impacted bindings and the audit rows are not modelled.
- Encryption, hashing and the resolved binding's other fields: a secret's value stands for its ciphertext.
- TokenRefresh.ApiClient.OnUnauthorized: the failed response is the event; token storage, headers and the redirect to the login page are not modelled, nor is the server-side rendering branch without a window.
- LogMerge.MergeObservabilityLogs: timestamps are integers in the order that string comparison gives them.
- ConnectionService.ConnectionManager.SendToEach: calls are atomic, so two calls never interleave at an await; encryption of frames, receiving, and the Redis fan-out are not modelled.
- Usage and thresholds are exact reals: floating-point rounding, and the rounding of the reported utilization, are not modelled.
- Environment lifecycle, certification runs, roles and access checks, tenancy, id encoding, storage and webhook providers, SDKs and user-interface code would add only easy members.
