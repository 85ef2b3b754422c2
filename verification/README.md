# Verified model of autosql's protocols

This project models the parts of autosql where several durable stores, several
processes or several passes over the same data have to agree, and proves what those
parts promise. `dafny verify dfyconfig.toml` (Dafny 4.11) covers the whole project.

What is modelled, file by file:

- **Disposable-database leases** (`LeaseRecord`, `LeaseFile`, `LeaseProtocol`,
  `LeaseRecovery`, `LeaseVerdicts`, `AdminAllocation`). The guarded lease file, the registry rows and the
  live role and database as one transition system with crashes and foreign sessions. The
  class `Allocation` performs provisioning and cleanup statement by statement and shows
  that each of its changes is one action of that system, so the theorems about all runs
  hold of it wherever it is interrupted.
- **Parallel test suites** (`SuiteTypes`, `SuiteSchedule`, `SuiteCase`, `SuiteRun`,
  `LanguageMigrations`). The atomic-counter queue under every interleaving, the execution
  of one case on its target, the verdict of a run, and the binding of manifest entries to
  declared versions.
- **Completion evidence and the lifecycle log** (`ExecutionTypes`, `CompletionAudit`,
  `CompletionHistory`, `CompletionObservation`, `HashChain`, `LifecycleLog`).
- **The outbox of down migrations, versioned applies and repairs** (`ExternalExecution`,
  `DownOutbox`, `OutboxDelivery`, `DownService`), again as a transition system plus a
  class whose changes are its actions. The three commands share one table.
- **The approval gate, its recheck and its audit chain** (`ApprovalGate`,
  `ApprovalRecheck`, `ApprovalChain`, `ApprovalGuard`).
- **Rollout order, bootstrap composition, bookkeeping exclusion, JSON Pointer locations
  and operator retries** (`FleetOrder`, `BootstrapPlan`, `Bookkeeping`, `JsonPointer`,
  `RetryScheduler`).

Conventions. A string that the program treats as one of a few known words is a datatype
with an `Other...` constructor for every other text. SHA-256 digests are constructors or
injective functions of what is hashed. Clock readings are parameters; the outcome of every
call to a database, a file system or another process is chosen nondeterministically, and a
parameter `calm`, `steady` or `env` rules such faults out where a statement needs it. A
crash is the end of any prefix of a run.

Assumptions of the lease protocol: PostgreSQL object identifiers are never reused;
verifying an object and dropping it are one action, because cooperating processes hold the
allocation's advisory lock (pkg/dbtest/admin_provision.go:56-62); the credential file is
written atomically; PostgreSQL refuses to drop a role that has privileges on or objects in
a live database, and nothing but the allocation's own database depends on its role.

Where the code says something other than one might expect:

- Cleanup can drop a database it did not create. Between `CREATE DATABASE` and the marking
  transaction another session can replace the database by one the administrator owns;
  `markCreatedDatabase` then marks and records the replacement, and cleanup takes it for
  its own. `IntruderIsDropped` is such a run, and `DropsOnlyWhatItCreated` says that this
  is the only way: a dropped object is the allocation's own if and only if no earlier step
  marked it while it was somebody else's.
- A database whose comment somebody changed is refused, and it also keeps the role: the
  marking transaction granted the role privileges on it, so `DROP ROLE` fails and the
  report is an ownership failure for the database and a failure to remove the role.
  `CleanupFollowsVerdicts` states the outcome for every state, and `OrderMatters` that
  cleanup works only because it takes the database first.
- `migrate repair` can lose lifecycle events. It drains the same table as down migrations
  and decodes every pending row as its own audit record; a stored lifecycle event decodes
  too, its identity matches the row's name, and so it is copied to the repair audit and
  marked done. `RepairLosesEvents` is such a run for every down migration, and
  `DownEventsLoggedUnlessLost` says exactly when a committed event is missing from the
  log. Events of a versioned apply are safe (`ApplyEventsLogged`), because their rows are
  named by a digest of the whole event; for the same reason a down migration refuses to
  run while such a row is pending. The other way round, down and apply copy a pending
  repair record to the lifecycle log (`RepairsNotedUnlessLost`).
- In `completionAuditMatches` the branch for failure events can never be taken, because
  the shape test just before it already refuses those types; the model has the shape test
  only, and `CompleteMeansOneCleanCompletion` states that no failure event passes.
- After `completed`, further `requested`, `lock_acquired` and similar events are accepted;
  only step work (`confirmed`, `intent`, `transaction_committed`) is refused. The
  specification says exactly that.
- `AppendCompletionObservation` does not compare the observation time with the artifact's
  creation time. An observation dated before it would make the log useless as evidence for
  that artifact from then on; `ObservationIsInvisible` gives the exact condition.
- A schema case executes its leading setups only and its main loop skips all setups, so a
  later setup would never run. `SchemaCaseRunsItsOperations` gives the exact condition,
  which the test parser enforces.
- The recheck before a guarded mutation does not always imply the complete gate: if one
  approver has two approvals and the later listed one takes over before the other expires,
  without one of its roles, a requirement can be unmet although every recorded approval is
  fresh (`RecheckOutlivesGate`). `RecheckSufficesIff` gives the exact condition for every
  request: the number of approvers with given roles never falls while all of them are
  fresh, checked at the instants and for the roles that the request and the authority
  name. For one approver that is having no approval downgraded (`OneApproverIff`).

## Model

| member | source | states |
|---|---|---|
| `LeaseRecords.ScanResources` | pkg/dbtest/lease.go:164-182 | the pass over a record's resources accepts exactly bounded lists of distinct, well-formed, correctly named and marked resources, and returns exactly their kinds |
| `LeaseRecords.ScanFailures` | pkg/dbtest/lease.go:184-196 | accepts exactly failures that name a recorded resource or the credentials, with a known category, and a failed state only with failures |
| `LeaseRecords.Validate` | pkg/dbtest/lease.go:82-100 | the staged checks accept exactly the records that are valid as a whole: identity, factory, resources, failures and state together |
| `LeaseRecords.HistoryRecordsValid` | pkg/dbtest/lease_file.go:127-140 | every record in a sequence of accepted saves is valid |
| `LeaseRecords.HistoryNeverGoesBack` | pkg/dbtest/lease.go:224-299 | along every sequence of accepted saves the allocation is fixed, resources keep their place and identifiers and never move back, nothing returns to ready or running once cleaning started, and cleaned is final |
| `LeaseRecords.ResourcesAppearOnlyWhileAllocating` | pkg/dbtest/lease.go:270-283 | a record with more resources than an earlier one got them in a save that began and ended while allocating |
| `LeaseFiles.LeaseFile.constructor` | pkg/dbtest/lease_file.go:53-84 | a new lease file holds its first record, on disk and in memory alike |
| `LeaseFiles.LeaseFile.Read` | pkg/dbtest/lease_file.go:154-179 | the stored record is returned exactly when there is one and it is valid |
| `LeaseFiles.LeaseFile.Write` | pkg/dbtest/lease_file.go:190-215 | the file holds the old or the new record, never a mixture, and the new one if the write is confirmed |
| `LeaseFiles.LeaseFile.Save` | pkg/dbtest/lease_file.go:127-140 | a save succeeds only from a file that still holds this process's record and only to an accepted successor; a failure leaves memory alone and changes the disk only by the unconfirmed rename |
| `LeaseFiles.LeaseFile.Open` | pkg/dbtest/lease_file.go:86-113 | opening succeeds exactly for a stored valid record, which the process then holds |
| `LeaseProtocol.RunInvariant` | pkg/dbtest/admin_provision.go:120-246 | in every run, with crashes and any foreign moves, the lease is valid, rows carry this allocation's labels, recorded roles are its own and what it calls its own it created |
| `LeaseProtocol.DropsOnlyWhatItCreated` | pkg/dbtest/admin_cleanup.go:110-131 | whatever cleanup drops in any run has the identifier its row recorded, carries the allocation's mark and is not recorded as released; an earlier action of the run created it if and only if no earlier step marked it as somebody else's database, and roles are always created by the run |
| `LeaseProtocol.RowsAreOwnOrMarked` | pkg/dbtest/admin_provision.go:223-246 | every identifier a row ever holds was created by this allocation or recorded by marking somebody else's database |
| `LeaseProtocol.MarkedForeignIsNotCreated` | pkg/dbtest/admin_provision.go:223-246 | an identifier marked as somebody else's is none this allocation creates, before or after |
| `LeaseProtocol.IntruderIsDropped` | pkg/dbtest/admin_provision.go:180-190 | from every fresh allocation, whatever exists under its name and whatever identifiers are taken, a run in which another session replaces the unmarked database and cleanup drops the replacement |
| `LeaseProtocol.LeasesFormHistory` | pkg/dbtest/lease_file.go:127-140 | the lease's contents along any run are a sequence of accepted saves |
| `LeaseProtocol.LeaseNeverGoesBack` | pkg/dbtest/lease.go:224-299 | along every run what the lease settled stays settled, and a cleaned lease never changes again |
| `LeaseProtocol.ForeignObjectsRefused` | pkg/dbtest/admin_registry.go:141-187 | in every run an object that lost the mark, whose row is released, or that this allocation neither created nor took for its own when marking is refused |
| `LeaseProtocol.RowsSettle` | pkg/dbtest/admin_registry.go:107-124 | a row that has an identifier keeps it for the rest of the run, and released stays released |
| `LeaseProtocol.PlannedRowsHaveNoIdentifier` | pkg/dbtest/admin_provision.go:208-221 | a planned row has no identifier in any run |
| `LeaseProtocol.GoneForGood` | pkg/dbtest/admin_registry.go:126-139 | an identifier once taken and gone never comes back |
| `LeaseProtocol.DropsEachKindOnce` | pkg/dbtest/admin_cleanup.go:34-62 | however often cleanup restarts, each kind is dropped at most once in a run |
| `LeaseRecovery.QuietRunsStayExplained` | pkg/dbtest/admin_provision.go:120-246 | if other sessions at most drop objects, every state of every run has lease, row and object of each kind in one of the listed combinations |
| `LeaseRecovery.ReleaseDownSettles` | pkg/dbtest/admin_cleanup.go:34-62 | the reverse loop settles every resource below its starting point, failing for the unmarked database and for nothing else |
| `LeaseRecovery.CleanupShape` | pkg/dbtest/cleanup.go:44-71 | what one undisturbed cleanup leaves in all stores |
| `LeaseRecovery.CleanedMeansNothingLeft` | pkg/dbtest/lease.go:233-251 | a cleaned lease of an undisturbed allocation means no live role or database, every row released, no credential |
| `LeaseRecovery.CleanedVerifies` | pkg/dbtest/admin_cleanup.go:148-166 | verification of a cleaned allocation finds every resource absent |
| `LeaseRecovery.CleanupRecovers` | pkg/dbtest/admin_cleanup.go:20-70 | one undisturbed cleanup removes everything, except that a created but unmarked database is refused, reported as an ownership failure and left alone; the record written is valid |
| `LeaseRecovery.CleanupIsIdempotent` | pkg/dbtest/admin_cleanup.go:20-32 | a second cleanup changes nothing, after success and after refusal alike |
| `LeaseRecovery.SecondCleanup` | pkg/dbtest/admin_cleanup.go:110-131 | cleaning up again while the unmarked database stands leaves every store as it was |
| `LeaseRecovery.OrderMatters` | pkg/dbtest/admin_cleanup.go:49-60 | while a live database depends on the role, releasing the role first fails and leaves everything as it was; releasing the database first lets both go |
| `LeaseRecovery.NotBlocked` | pkg/dbtest/admin_cleanup.go:49-60 | in the reverse order nothing of an undisturbed allocation is ever blocked when its turn comes |
| `LeaseRecovery.RecoversFromEveryCrash` | pkg/dbtest/admin_provision.go:64-82 | from every state of every run in which others at most drop objects the next cleanup recovers, and a further one changes nothing; an unmarked database has no dependents |
| `LeaseVerdicts.ReleaseDownFollowsVerdicts` | pkg/dbtest/admin_cleanup.go:34-62 | whatever the stores hold, the reverse loop releases in all stores every resource except the refused ones and an owned role that a database depends on which is not released before it; those it leaves alone and reports, as ownership and as removal failures |
| `LeaseVerdicts.CleanupFollowsVerdicts` | pkg/dbtest/admin_cleanup.go:20-70 | whatever the stores hold, a cleanup without faults ends cleaned exactly when nothing is refused and no role is kept by a database; what is left is untouched and reported with its category, all else is gone |
| `LeaseVerdicts.CleanupAfterAnyRun` | pkg/dbtest/admin_cleanup.go:20-70 | the same after every run, whatever other sessions did in it |
| `LeaseVerdicts.RoleFirstInEveryRun` | pkg/dbtest/admin_provision.go:64-82 | in every run the role is recorded before the database |
| `LeaseVerdicts.RoleIsKeptByRefusedDatabase` | pkg/dbtest/admin_cleanup.go:110-123 | after every run an owned role is left exactly when a live database depends on it that is refused or not recorded |
| `AdminAllocations.Allocation.constructor` | pkg/dbtest/admin_provision.go:19-48 | a new allocation stands at the start of a run of the protocol |
| `AdminAllocations.Allocation.SaveLease` | pkg/dbtest/lease_file.go:127-140 | a guarded save is one action of the protocol, also when it fails after reaching the disk |
| `AdminAllocations.Allocation.Reopen` | pkg/dbtest/cleanup.go:17-31 | a new process takes over exactly a stored valid lease and remembers nothing else |
| `AdminAllocations.Allocation.PlanLeaseResource` | pkg/dbtest/admin_provision.go:92-100 | appends exactly one planned resource of the kind, if the lease accepts it |
| `AdminAllocations.Allocation.SaveLeaseResource` | pkg/dbtest/admin_provision.go:102-111 | replaces the resource of that kind and nothing else, or leaves the record; refuses an unplanned kind |
| `AdminAllocations.Allocation.CreateOwnedRole` | pkg/dbtest/admin_provision.go:140-167 | one transaction creates, marks and registers the role under a fresh identifier; without faults it succeeds exactly when name and row are free |
| `AdminAllocations.Allocation.ProvisionRole` | pkg/dbtest/admin_provision.go:120-138 | every step is an action of the protocol; undisturbed, lease, row and marked object agree on the new role |
| `AdminAllocations.Allocation.RecordResource` | pkg/dbtest/admin_provision.go:120-138 | the identifier the registry holds is recorded in the lease |
| `AdminAllocations.Allocation.RegisterDatabasePlan` | pkg/dbtest/admin_provision.go:208-221 | registers a plan without identifier, exactly when no row exists |
| `AdminAllocations.Allocation.CreateDatabaseObject` | pkg/dbtest/admin_provision.go:169-199 | creates the unmarked database under a fresh identifier outside any transaction |
| `AdminAllocations.Allocation.MarkCreatedDatabase` | pkg/dbtest/admin_provision.go:223-246 | one transaction marks the database, grants it to the role and moves its identifier into its row, and does so only for a database the administrator owns and while the role exists |
| `AdminAllocations.Allocation.CreateAndMark` | pkg/dbtest/admin_provision.go:180-190 | create and mark, with the crash window between them |
| `AdminAllocations.Allocation.ProvisionDatabase` | pkg/dbtest/admin_provision.go:169-199 | every step is an action of the protocol; undisturbed, lease, row and marked object agree on the new database |
| `AdminAllocations.Allocation.WriteCredentialFile` | pkg/dbtest/lease_credentials.go:13-35 | the reference is saved before the file exists |
| `AdminAllocations.Allocation.OpenTarget` | pkg/dbtest/admin_provision.go:261-287 | the lease becomes ready only with the credential file written |
| `AdminAllocations.Allocation.Provision` | pkg/dbtest/admin_provision.go:64-82 | success means a ready lease; undisturbed, a new lease always gets there, with role and database marked, registered and recorded |
| `AdminAllocations.Allocation.BeginUse` | pkg/dbtest/disposable_target.go:64-76 | success means the lease is running, moved there by a guarded save if it was ready |
| `AdminAllocations.Allocation.BeginLeaseCleanup` | pkg/dbtest/cleanup.go:44-52 | moves the lease to cleaning exactly when the file accepts that, and changes nothing otherwise |
| `AdminAllocations.Allocation.VerifyAndDrop` | pkg/dbtest/admin_cleanup.go:110-123 | drops exactly an object verification calls owned, unless the server refuses to drop a role something depends on; absence and refusal drop nothing |
| `AdminAllocations.Allocation.RecordResourceReleased` | pkg/dbtest/admin_cleanup.go:133-146 | releases the row of a kind seen gone, keeping its identifier |
| `AdminAllocations.Allocation.CleanupAdminResource` | pkg/dbtest/admin_cleanup.go:110-131 | object, row and lease in that order; undisturbed it is the specification's step with its failure category |
| `AdminAllocations.Allocation.FailedLeaseResources` | pkg/dbtest/admin_cleanup.go:64-70 | one failure of the category per recorded resource, in order |
| `AdminAllocations.Allocation.CleanupAdminResources` | pkg/dbtest/admin_cleanup.go:34-62 | newest resource first; undisturbed, state and failures are those of the specification's loop |
| `AdminAllocations.Allocation.FinishLeaseCleanup` | pkg/dbtest/cleanup.go:54-71 | removes the credential and records cleaned, or the failures |
| `AdminAllocations.Allocation.VerifyCleaned` | pkg/dbtest/admin_cleanup.go:148-166 | accepts a cleaned allocation only if every resource verifies as absent, and writes nothing |
| `AdminAllocations.Allocation.CleanupAdminAllocation` | pkg/dbtest/admin_cleanup.go:20-32 | success means cleaned; undisturbed it is exactly the specified cleanup |
| `AdminAllocations.Allocation.Recover` | pkg/dbtest/cleanup.go:13-42 | after any history of this object in which others at most dropped objects, a cleanup leaves everything cleaned or only the unmarked database standing |
| `SuiteSchedule.EveryInterleavingIsExclusive` | pkg/dbtest/suite.go:157-178 | in every interleaving with cancellation anywhere no case starts twice, no slot is written twice or before its case started, unwritten slots keep their initial result and at most the allowed number run at once |
| `SuiteSchedule.UncancelledRunsAgree` | pkg/dbtest/suite.go:157-178 | every finished interleaving without cancellation has the results of the sequential run |
| `SuiteSchedule.FinishedIsSequential` | pkg/dbtest/suite.go:157-178 | all workers done without cancellation means every runnable case was executed and stored |
| `SuiteSchedule.WorkersProgress` | pkg/dbtest/suite.go:161-175 | every step of a worker uses up work |
| `SuiteSchedule.RunsAreBounded` | pkg/dbtest/suite.go:157-178 | the number of worker steps in any run is bounded by the initial work |
| `SuiteSchedule.Advance` | pkg/dbtest/suite.go:161-175 | one move of the worker loop is a step of the queue |
| `SuiteSchedule.Schedule` | pkg/dbtest/suite.go:157-178 | ends under every choice of the next worker; without cancellation its results are the sequential ones, and skipped cases are never touched |
| `SuiteCase.ValidateSchemaSetup` | pkg/dbtest/language_case.go:81-93 | accepts exactly cases that are no schema case or have their setups first |
| `SuiteCase.SchemaCaseRunsItsOperations` | pkg/dbtest/suite_case.go:58-69 | a schema case attempts exactly its operations in order if and only if its setups come first |
| `SuiteCase.BoundCaseExecutesManifestPrefix` | pkg/dbtest/suite_case.go:147-170 | a migration case that finished its work executed exactly the statements of the manifest entries its versions carry, in manifest order |
| `SuiteCase.OperationStatements` | pkg/dbtest/suite_case.go:94-122 | the statements of the main loop are those of the bound migrations, mark by mark |
| `SuiteCase.CaseRun.RecordOperationError` | pkg/dbtest/suite_case.go:214-225 | the case is failed, and both the operation's and its connection cleanup's failure are recorded |
| `SuiteCase.CaseRun.ExecuteStatements` | pkg/dbtest/suite_sql.go:36-48 | statements are attempted in order; no failure means all of them were, otherwise a prefix |
| `SuiteCase.CaseRun.ExecuteBatch` | pkg/dbtest/suite_sql.go:21-70 | as for statements, with commit failures reported as the batch's and rollback failures separately |
| `SuiteCase.CaseRun.ExecuteSchemaSetup` | pkg/dbtest/suite_case.go:58-69 | exactly the leading setups, in order, or a prefix and a recorded failure |
| `SuiteCase.CaseRun.PrepareSchema` | pkg/dbtest/suite_schema.go:68-80 | exactly the program's statements in order, or a prefix and a failure |
| `SuiteCase.CaseRun.PrepareSchemaCase` | pkg/dbtest/suite_case.go:46-56 | setups and then the schema program, or a recorded failure |
| `SuiteCase.CaseRun.ExecuteVersion` | pkg/dbtest/suite_case.go:147-170 | the migrations bound to the mark, file by file, and only then the version is reported |
| `SuiteCase.CaseRun.ExecuteOperations` | pkg/dbtest/suite_case.go:94-122 | passing means all work was done in order, all versions reported and all checks counted; otherwise a prefix was done and a reason is recorded |
| `SuiteCase.CaseRun.AppendFixtureCleanupFailures` | pkg/dbtest/suite_case.go:195-204 | a failed cleanup always adds to the failures, a good one never |
| `SuiteCase.CaseRun.CleanCase` | pkg/dbtest/suite_case.go:172-193 | every cleanup last to first and one close are attempted whatever fails, and a case stays passed only if none did |
| `SuiteCase.CaseRun.RecordProvisionFailure` | pkg/dbtest/suite_case.go:227-241 | a provisioning failure is recorded with one cleanup entry per retained lease error |
| `SuiteCase.CaseRun.ExecuteCase` | pkg/dbtest/suite_case.go:11-44 | a case with a target does a prefix of its work, all cleanups in reverse and one close; passing means all of the work and no recorded failure; failing means a recorded one; without a target nothing is touched |
| `SuiteCase.BindAndExecute` | pkg/dbtest/suite_case.go:147-170 | a migration case that is bound and passes executed exactly the statements of the manifest entries up to its last declared version, in manifest order |
| `SuiteRun.ValidateRunnableCases` | pkg/dbtest/suite.go:83-102 | accepts exactly parsed cases with distinct identities of which one is to run |
| `SuiteRun.Validate` | pkg/dbtest/suite.go:104-130 | accepts exactly runnable suites within the limits whose cases have their programs |
| `SuiteRun.CountSuiteOutcomes` | pkg/dbtest/suite.go:180-196 | each count is the number of results with that outcome, and they add up to the selected cases |
| `SuiteRun.NoFailureMeansAllPassed` | pkg/dbtest/suite.go:198-208 | an uncancelled run reports no failure exactly when every case is skipped or passed |
| `SuiteRun.ReportFirst` | pkg/dbtest/suite.go:149-154 | the reported failure is that of the first failing case in suite order |
| `SuiteRun.PassedMeansWorkDone` | pkg/dbtest/suite.go:149-154 | if every case is skipped or passed, the target of every runnable case saw all of its work |
| `SuiteRun.Run` | pkg/dbtest/suite.go:132-155 | counts add up whatever happens; without cancellation results and first failure are the sequential ones; no error means an acceptable suite with every case skipped or passed, at least one passed, and every runnable case's target having seen all its work in order, its cleanups in reverse and one close |
| `LanguageMigrations.TestVersionPositions` | pkg/dbtest/language_migrations.go:52-67 | succeeds exactly for linear, strictly increasing manifests and then indexes every version |
| `LanguageMigrations.TestMigrationSteps` | pkg/dbtest/language_migrations.go:69-85 | succeeds exactly if every entry of the range can be executed, and returns them in order |
| `LanguageMigrations.BindMigrations` | pkg/dbtest/language_migrations.go:19-50 | succeeds exactly for intact linear snapshots holding the declared versions in increasing order; the transitions then carry manifest entries 0 up to the last declared version, each once and in order, and each ends with its own version |
| `CompletionAudit.CompletionAuditMatches` | pkg/executor/completion.go:205-237 | the one-pass loop accepts exactly the logs whose events about the artifact are bound, shaped and distinct and hold a completion preceded by request, lock, every confirmation, intent and commit, with no step work after it |
| `CompletionAudit.RequiredCompletionAudit` | pkg/executor/completion.go:262-280 | looks for exactly the identifiers the plan's phases demand |
| `CompletionAudit.RequiredIsHappened` | pkg/executor/completion.go:262-280 | in a sound prefix having seen those identifiers is having had those events |
| `CompletionAudit.CompleteMeansOneCleanCompletion` | pkg/executor/completion.go:223-233 | an accepted log has exactly one completion and no failure of the execution |
| `CompletionAudit.ObservationIsInvisible` | pkg/executor/audit.go:207-215 | an observation of a proven completion leaves every verdict, for every artifact, attempt and later clock reading, unchanged if and only if it is not dated before the artifact |
| `CompletionAudit.AppendedVerdict` | pkg/executor/completion.go:208-218 | an event that is no execution evidence matters only if it concerns the artifact and is badly bound |
| `CompletionAudit.SameAttempt` | pkg/executor/completion.go:212-214 | one log proves one attempt only |
| `CompletionAudit.VerdictOutlivesClock` | pkg/executor/completion.go:212-214 | what one clock reading proves every later one proves |
| `CompletionHistory.HistoryBindings` | pkg/executor/completion.go:63-74 | the maps give for every identifier the last step and the last phase declared with it |
| `CompletionHistory.ReadCompletedAttempt` | pkg/executor/completion.go:141-174 | the loop's answer, in every error case too, is the one the rows deserve |
| `CompletionHistory.CountingCovers` | pkg/executor/completion.go:170-172 | comparing counts is enough to know that every step has a row |
| `CompletionHistory.AttemptMeansEveryStepOnce` | pkg/executor/completion.go:141-174 | an attempt is reported exactly for complete reads with one confirmed, correctly bound row per step, all of that attempt |
| `CompletionHistory.OrderDoesNotMatter` | pkg/executor/completion.go:144 | outcome and attempt are the same for every permutation of the rows |
| `CompletionObservation.CompletionEligible` | pkg/executor/completion.go:121-139 | accepts exactly ordinary executable plans in nonempty phases |
| `CompletionObservation.ObserveCompletion` | pkg/executor/completion.go:83-119 | proven exactly when both history reads show every step once in one attempt, both state reads match and the log proves that attempt; every refusal names its cause |
| `HashChain.LastHashDeterminesChain` | pkg/approval/approval.go:168-179 | the last hash of a chain determines every record in it |
| `HashChain.ChainGrows` | pkg/executor/audit.go:88-90 | appending the prepared successor keeps a chain a chain |
| `LifecycleLog.AppendedKeepsLog` | pkg/executor/audit.go:53-104 | an append keeps an intact chain with unique identities, keeps every record in place and makes the event present |
| `LifecycleLog.FileAudit.Scan` | pkg/executor/audit.go:57-84 | succeeds exactly for an intact chain without another event under the same identity, and finds duplicates and the execution's events |
| `LifecycleLog.FileAudit.Write` | pkg/executor/audit.go:92-103 | the line is either absent or complete, and present if confirmed |
| `LifecycleLog.FileAudit.AppendDurable` | pkg/executor/audit.go:34-51 | success means appended once or already there; a refusal changes nothing |
| `LifecycleLog.FileAudit.AppendCompletionObservation` | pkg/executor/audit.go:186-215 | appends only what the log itself proves, under the same lock, and then no verdict changes unless the observation predates the artifact |
| `LifecycleLog.ObservationKeepsVerdicts` | pkg/executor/audit.go:186-215 | the same on whole files, whose readers see only the events of one artifact |
| `ExternalExecution.ExternalEvents` | pkg/executor/executor.go:82-100 | the commit, one confirmation per executable step the phases list, in their order, and the completion, each bound to the artifact and attempt |
| `ExternalExecution.EventsAreIdentified` | pkg/executor/executor.go:35-38 | the identity of each such event names its attempt, artifact, type and step |
| `ExternalExecution.SameIdentitySameEvent` | pkg/executor/executor.go:35-38 | such events of one identity are one event up to their time, if digests tell artifacts apart |
| `DownOutbox.RunKeeps` | internal/cli/production_down.go:432-525 | in every run of the three commands the log is an intact chain with unique identities, rows are distinct and as a command writes them, and a row marked done was copied to the log or, if repair takes such rows, to the repair audit |
| `DownOutbox.RowsComeFromCommits` | pkg/migrate/revision/revision.go:134-140 | every outbox row was committed by a down migration, an apply or a repair; a transaction that did not commit contributes none |
| `DownOutbox.CommittedHasRow` | pkg/migrate/revision/revision.go:134-140 | every committed row has its name in the table for the rest of the run |
| `OutboxDelivery.DeliveredIffAppended` | pkg/executor/audit.go:53-104 | the log holds an event exactly if it did at the start or somebody appended it |
| `OutboxDelivery.MarkedHow` | pkg/migrate/revision/revision.go:159-165 | a row marked done was marked by a command that takes such rows and had copied it to its own file |
| `OutboxDelivery.CommittedSame` | pkg/executor/executor.go:82-100 | down migrations commit one event per identity, up to its time |
| `OutboxDelivery.DownEventsLoggedUnlessLost` | pkg/migrate/repair/repair.go:314-332 | whenever nothing is pending, an event committed with a down migration is in the log exactly once and as committed if and only if not both repair marked its row and nobody ever appended it; what is lost to the log is in the repair audit |
| `OutboxDelivery.ApplyEventsLogged` | pkg/migrate/apply/apply.go:149-172 | whenever nothing is pending, every event committed by an apply is in the log exactly once |
| `OutboxDelivery.RepairsNotedUnlessLost` | internal/cli/production_down.go:507-525 | whenever nothing is pending, a committed repair is in the repair audit if and only if not both down or apply marked its row and nobody ever noted it; what is lost is in the lifecycle log |
| `OutboxDelivery.RepairLosesEvents` | pkg/migrate/repair/repair.go:318-332 | for every down migration and log a run that commits it, lets repair drain, and ends with nothing pending and none of its events in the log |
| `DownOutbox.LogOnlyGrows` | pkg/executor/audit.go:53-104 | records stay where they are, in the log and in the repair audit |
| `DownService.Service.constructor` | internal/cli/production_down.go:346-376 | starts at the beginning of a run, with the given log |
| `DownService.Service.Deliver` | internal/cli/artifact_apply.go:45-50 | success means the event is in the log; without faults it fails exactly on a conflict |
| `DownService.Service.PendingOutbox` | pkg/migrate/revision/revision.go:141-158 | the unfinished rows, each once |
| `DownService.Service.EnqueueOutbox` | pkg/migrate/revision/revision.go:134-140 | stages all rows, keeping rows that exist; refuses a row without a name |
| `DownService.Service.NoteRepair` | internal/cli/migrate_repair.go:22-45 | one record per identity; success means it is in the repair audit |
| `DownService.Service.FinalizeOutbox` | pkg/migrate/revision/revision.go:159-165 | marks exactly one pending row, and only one the command takes and has copied |
| `DownService.Service.DrainRow` | pkg/migrate/repair/repair.go:318-332 | the command's own file first, the mark second; a failure leaves the row pending; down and apply refuse a row they do not take, repair leaves it |
| `DownService.Service.DrainOutbox` | internal/cli/production_down.go:507-525 | success leaves nothing pending but what repair skips; without faults repair always succeeds, and down and apply exactly when they take every pending row and none conflicts with the log or another, in any order of the rows |
| `DownService.Service.DeliverAll` | pkg/executor/executor.go:104-114 | success means every event is in the log |
| `DownService.Service.CommitBatch` | internal/cli/production_down.go:487-490 | a reported commit put all rows in place; an unreported one did so or changed nothing |
| `DownService.Service.SettleDown` | internal/cli/production_down.go:491-504 | success means all events delivered and all rows marked |
| `DownService.Service.ApplyDown` | internal/cli/production_down.go:346-506 | refusal and failure add no rows; success means the execution's events are committed and delivered and nothing is pending |
| `ApprovalGate.ValidIsCurrent` | pkg/approval/approval.go:383-396 | the map of approvals holds exactly the approvers with a current matching approval, with the claims of one of them |
| `ApprovalGate.SeparationOfDuties` | pkg/approval/approval.go:349-396 | nobody counted is author or requester, who differ, and everybody counted has a current verified approval for this plan and environment |
| `ApprovalGate.CollectValid` | pkg/approval/approval.go:383-396 | the loop collects exactly the last current approval of each approver |
| `ApprovalGate.RolesHeld` | pkg/approval/approval.go:431-445 | finds exactly whether all wanted roles are held |
| `ApprovalGate.CountEligible` | pkg/approval/approval.go:410-418 | counts distinct approvers with all roles in any iteration order, and notes each with its expiry |
| `ApprovalGate.MeetRequirements` | pkg/approval/approval.go:379-429 | allows exactly if every requirement is well formed and every applicable one has enough distinct approvers; records exactly the counted approvers, sorted, with their expiries |
| `ApprovalGate.EvaluateFor` | pkg/approval/approval.go:339-429 | allows exactly what the complete gate demands at that instant, with or without the plan's expiry |
| `ApprovalGate.ApprovalsFresh` | pkg/approval/approval.go:454-468 | the cheap recheck: plan and every recorded approval still live |
| `ApprovalGate.RolesKeptIffNeverDowngraded` | pkg/approval/approval.go:383-396 | whoever is valid and not yet expired later keeps all roles, for all instants, if and only if no approval takes over from another of the same approver before it expires without one of its roles |
| `ApprovalGate.CountsFromBegin` | pkg/approval/approval.go:383-396 | an approval that counts at any instant counts from its own start or from another's expiry, so finitely many instants decide |
| `ApprovalRecheck.AllCountsKept` | pkg/approval/approval.go:383-396 | the instants and roles that request and authority name decide for all instants and roles whether the number of fresh approvers with some roles can fall |
| `ApprovalRecheck.StillSatisfied` | pkg/approval/approval.go:454-468 | a requirement met by approvers who are all fresh is still met later, if counts are kept |
| `ApprovalRecheck.FreshIsAuthorized` | pkg/approval/approval.go:454-511 | if counts are kept or the request overrides, whoever was authorized and passes the recheck later would pass the complete gate later |
| `ApprovalRecheck.LostCountBreaksRecheck` | pkg/approval/approval.go:454-468 | every lost count breaks the recheck for some policy, with any number of approvers and any expiry of the plan |
| `ApprovalRecheck.RecheckSufficesIff` | pkg/approval/approval.go:454-468 | for every request the recheck suffices under every policy if and only if it overrides, is never admitted or keeps its counts |
| `ApprovalRecheck.NeverDowngradedKeepsCounts` | pkg/approval/approval.go:383-396 | without a downgrade no count is lost |
| `ApprovalRecheck.OneApproverIff` | pkg/approval/approval.go:454-468 | with one approver and a plan that does not expire, the recheck suffices under every policy if and only if nothing is downgraded |
| `ApprovalRecheck.RecheckOutlivesGate` | pkg/approval/approval.go:383-396 | a concrete gate where the recheck passes and the gate no longer would |
| `ApprovalGuard.GuardedApply` | pkg/approval/approval.go:471-511 | for every authority, a mutation happens only after an authorization that the intact trail records, with a plan still live; if the request overrides or keeps its counts the complete gate is open at the recheck's clock reading; denials end with a denying record |
| `ApprovalChain.FileOnlyGrows` | pkg/approval/approval.go:140-166 | under every interleaving of any number of writers the file stays an intact chain and only grows |
| `ApprovalChain.WinnersStay` | pkg/approval/approval.go:219-257 | a written record stays forever at its sequence number, whether its writer was told so or not; a writer that loses the comparison or whose write fails changes nothing |
| `ApprovalChain.WinnersDiffer` | pkg/approval/approval.go:219-257 | two written records never claim the same place |
| `ApprovalChain.NoLostUpdate` | pkg/approval/approval.go:140-166 | a writer that wins appends to exactly the file whose tail it read |
| `ApprovalChain.SameTailMeansUnchanged` | pkg/approval/approval.go:227-236 | comparing the last hash alone tells that nothing was appended since the tail was read |
| `ApprovalChain.FileSink.Load` | pkg/approval/approval.go:285-315 | accepts exactly intact chains and returns their records |
| `ApprovalChain.FileSink.Tail` | pkg/approval/approval.go:195-210 | the last record of an intact chain |
| `ApprovalChain.FileSink.AppendLocked` | pkg/approval/approval.go:219-257 | appends exactly the expected successor; a refusal changes nothing |
| `ApprovalChain.FileSink.AppendDurable` | pkg/approval/approval.go:140-166 | on success the event's record is last in an intact chain that extends what was there, whatever other writers did meanwhile; every change is a step of the interleaved system |
| `StringOrder.SortedIsUnique` | pkg/fleet/types.go:80-84 | the sorted list of a set of names is unique |
| `StringOrder.SortStrings` | pkg/fleet/types.go:80-84 | the sorted list of the names, whatever the iteration order |
| `FleetOrder.ValidateDependencies` | pkg/fleet/rollout.go:111-145 | accepts exactly the graphs in which every dependency exists and no path returns to its start |
| `FleetOrder.Checker.Check` | pkg/fleet/rollout.go:114-134 | a success lists the name after everything below it; a failure shows a cycle or an unknown name |
| `FleetOrder.OrderIsTopological` | pkg/fleet/types.go:75-102 | for every closed acyclic graph the order holds each group exactly once, after all its dependencies |
| `FleetOrder.OrderIgnoresListing` | pkg/fleet/types.go:76-84 | listing the same groups in another order gives the same result |
| `FleetOrder.Visitor.VisitGroup` | pkg/fleet/types.go:87-97 | the recursive visit is the depth-first search, for every graph, cyclic ones included |
| `FleetOrder.GroupNames` | pkg/fleet/types.go:75-102 | returns the order of the graph its groups describe |
| `BootstrapPlan.NormalizeTwice` | pkg/bootstrap/database.go:77-97 | normalizing a target twice is normalizing it once |
| `BootstrapPlan.UniqueSorted` | pkg/bootstrap/plan.go:307-329 | the first value stays first, the others follow once each in order |
| `BootstrapPlan.InsertionSort` | pkg/bootstrap/plan.go:320-325 | the swaps sort the values and keep exactly them |
| `BootstrapPlan.LiftedDependencies` | pkg/bootstrap/plan.go:228-236 | every step depends first on database preparation and then on exactly its own dependencies, sorted |
| `BootstrapPlan.PhasesPartitionSteps` | pkg/bootstrap/plan.go:243-250 | the phases' steps are exactly the plan's steps in order, and the phases are maximal runs of one stage, scope and mode |
| `BootstrapPlan.ComposedDependenciesFirst` | pkg/bootstrap/plan.go:224-242 | if the schema plan lists dependencies first, so does the composed plan |
| `BootstrapPlan.StepIdsDiffer` | pkg/bootstrap/plan.go:221-223 | distinct steps have distinct identifiers |
| `BootstrapPlan.CheckpointsAreClosed` | pkg/bootstrap/plan.go:243-255 | stopping after any phase leaves steps closed under dependencies |
| `BootstrapPlan.Compose` | pkg/bootstrap/plan.go:210-257 | the loops build exactly the specified steps and phases |
| `BootstrapPlan.CheckPreconditions` | pkg/bootstrap/plan.go:168-181 | accepts exactly no preconditions or a valid document in strict order of identifiers |
| `BootstrapPlan.Validate` | pkg/bootstrap/plan.go:158-197 | accepts exactly the plans composition builds for their target and schema plan, with ordered preconditions and their own digest |
| `BootstrapPlan.ComposePlan` | pkg/bootstrap/plan.go:124-139 | succeeds exactly for valid inputs: what it builds is always accepted |
| `BootstrapPlan.OrderIsUnique` | pkg/bootstrap/plan.go:146-148 | preconditions with distinct identifiers have exactly one sorted order, so the bound plan does not depend on the order they were given in |
| `BootstrapPlan.WithPreconditions` | pkg/bootstrap/plan.go:144-156 | succeeds exactly for composed plans and preconditions that are none, or distinct and a valid document in order; the plan then holds exactly them, sorted |
| `Bookkeeping.ExcludeBookkeeping` | pkg/executor/bookkeeping.go:19-47 | the fixpoint loop ends and keeps, in order, exactly the resources no parent chain of which reaches the history table, cyclic parents and repeated identifiers included |
| `Bookkeeping.ExclusionIsIdempotent` | pkg/executor/bookkeeping.go:19-47 | excluding twice is excluding once |
| `Bookkeeping.ExclusionIgnoresOrder` | pkg/executor/bookkeeping.go:19-47 | another order of the resources keeps the same resources |
| `Bookkeeping.AddedHistoryIsInvisible` | pkg/executor/bookkeeping.go:11-18 | a history table with its descendants, added anywhere to a clean document, is invisible |
| `JsonPointer.UnescapeInverts` | pkg/config/project.go:98-100 | reading an escaped part back gives the original, so different keys have different parts |
| `JsonPointer.PointersAreDistinct` | pkg/config/parse_json.go:295-303 | distinct nodes of a tree have distinct pointers |
| `JsonPointer.CollectNodeLocations` | pkg/config/parse_json.go:295-303 | records every node's own range under its pointer, overwriting nothing else |
| `JsonPointer.Location` | pkg/config/effective.go:105-121 | looks the text up, then cuts it at its last slash, for every text |
| `JsonPointer.LocationIsDeepestNode` | pkg/config/effective.go:105-121 | a lookup of any pointer returns the range of the deepest existing node on that path |
| `JsonPointer.EveryPointerHasSegments` | pkg/config/effective.go:105-121 | every text that is empty or starts with a slash is such a pointer |
| `RetryScheduler.TransientDelay` | internal/operatorcontroller/diagnostics.go:193-197 | between one second and a minute, doubling with the failures, with at most a tenth added |
| `RetryScheduler.NoDelaySurvivesInvalidation` | internal/operatorcontroller/diagnostics.go:352-363 | after an invalidation, also one during an attempt, nothing is put off until an attempt begun afterwards ends |
| `RetryScheduler.NextAttemptWaits` | internal/operatorcontroller/diagnostics.go:151-168 | with the same input, no invalidation and no failed read, the next attempt starts exactly when the delay is over |
| `RetryScheduler.AttemptSpacing` | internal/operatorcontroller/diagnostics.go:438-469 | attempts start at least five minutes after a deterministic refusal began, and from one second to a minute after a transient one |
| `RetryScheduler.CountNeverFalls` | internal/operatorcontroller/diagnostics.go:438-450 | from any point on, during an attempt too, the cumulative count of one resource never falls between deletions |
| `RetryScheduler.FailureCounts` | internal/operatorcontroller/diagnostics.go:444-448 | every failed attempt adds to the count |
| `RetryScheduler.Diagnostics.InvalidateRetries` | internal/operatorcontroller/diagnostics.go:352-363 | clears every named resource once for each time it is named, and no other |
| `RetryScheduler.Diagnostics.BeginAttempt` | internal/operatorcontroller/diagnostics.go:139-168 | forgets a deleted resource, puts off an early attempt or begins one, and touches no other resource |
| `RetryScheduler.Diagnostics.ScheduleAttempt` | internal/operatorcontroller/diagnostics.go:438-469 | stores the attempt's end without a delay if an invalidation came meanwhile, and asks for a requeue exactly then |

## Left out

- Container mode of the lease factory: record validation covers it, the protocol covers the existing-server mode only.
- Checkpoint hooks of provisioning, passwords and connection URLs: they touch none of the three stores.
- Torn credential files: the write is one step; the code refuses to remove a torn file.
- Torn log lines: a failed write of the lifecycle or approval log leaves the line absent or complete; a torn line makes every later read refuse the file.
- Version strings are their place in the version order, and the regular expressions of lease validation are fields holding their outcome.
- JSON encoding, SHA-256 and Ed25519: values are compared instead of their encodings, and digests determine what was hashed.
- SuiteCase.CaseRun.ExecuteCase: source ranges, messages and durations of results are not modelled; failure kinds and codes come from the driver's error.
- SuiteRun.Run: the failure reported after a cancellation is not specified further, because it is the context's error.
- SuiteSchedule.Schedule: an arbitrary interleaving of atomic worker steps on a value, not Go's scheduler on shared memory.
- Test selection by file and glob: sorting and filtering before a run.
- LifecycleLog.FileAudit.AppendDurable: file locks and context expiry during the scan are not modelled; the whole append happens under the lock.
- DownService.Service.ApplyDown: schema inspection, fingerprints and revision records decide only whether it continues, so they are one nondeterministic choice each.
- OutboxDelivery.DownEventsLoggedUnlessLost: artifacts with one digest are taken to be one artifact, as digests determine what was hashed.
- The commands `migrate apply` and `migrate repair` beyond their commits and drains: their other steps do not touch the outbox.
- LifecycleLog.FileAudit.Scan: the scanner refuses lines over 64 KiB (pkg/executor/audit.go:153), while appends have no limit, so an intact file with one longer line is refused by every later read; lengths of lines are not modelled.
- ApprovalChain.FileSink.Load: the same with lines over 1 MiB (pkg/approval/approval.go:295).
- ApprovalGate.EvaluateFor: denial texts are one reason, and the authority's answers are fixed during a call.
- BootstrapPlan.Validate: runtime authorizations are left out, since they are no part of a plan's identity; the schema plan's own validation is a flag plus the facts about step identifiers and dependencies used here.
- RetryScheduler.Diagnostics.ScheduleAttempt: the input digest is the one computed when the attempt began; attempts of one resource do not overlap; the failure count an attempt stores ignores an invalidation that came meanwhile, as in the code.
- Classification of reconciliation errors into reasons: it would add easy members only.
- JSON decoding, field validation and source positions of the project parser: the model starts from the parsed tree.
- HCL parsing, CLI flags, secret resolution, Docker, Kubernetes and Terraform plumbing, drift detection, analytics and reports.
