/** Plans, artifacts and lifecycle events, as the executor's evidence code sees them. */
module ExecutionTypes {

  datatype StepKind = Executable | Topology | OtherKind(text: string)

  /** `hash` is the digest of the step's content. */
  datatype Step = Step(id: string, kind: StepKind, hash: string)

  datatype Transaction = RequiredTx | ProhibitedTx | OtherTx(text: string)

  datatype Phase = Phase(id: string, transaction: Transaction, stepIds: seq<string>)

  datatype Artifact = Artifact(
    digest: string,
    planDigest: string,
    bundleDigest: string,
    databaseIdentity: string,
    environment: string,
    sourceRevision: string,
    toFingerprint: string,
    createdAt: int,
    fromManifest: bool,
    transitionMode: bool,
    steps: seq<Step>,
    phases: seq<Phase>)

  function TargetOf(a: Artifact): string { a.databaseIdentity + "/" + a.environment }

  datatype EventType =
    | Requested | LockAcquired | TransactionStarted | Contended | AuthorizationRefused | ExpiryRefused | Stale
    | Confirmed | Intent | TransactionCommitted | Completed
    | Uncertain | RollbackFailed | TransactionFailed | TransactionRollback | TransactionBeginFailed
    | CompletionObserved
    | OtherType(text: string)

  /**
   Event identifiers are digests. A digest is taken to determine what was hashed, so the
   derived forms are injective and never meet each other or another text; a repair record
   is named by its proposal's digest.
   */
  datatype EventId =
    | NoId
    | LifecycleId(attempt: int, executionId: string, typ: EventType, stepId: string)
    | ObservationId(uid: string, generation: int, artifact: string, observedAttempt: int)
    | RepairId(proposal: string)
    | OtherId(text: string)

  datatype Event = Event(
    id: EventId,
    typ: EventType,
    executionId: string,
    target: string,
    artifactDigest: string,
    planDigest: string,
    bundleDigest: string,
    stepId: string,
    guidance: string,
    at: int,
    attempt: int)

  /** Equal up to the time, which event identities leave out. */
  predicate SameEvent(e: Event, f: Event) { e.(at := 0) == f.(at := 0) }

  function LifecycleEventId(e: Event): EventId { LifecycleId(e.attempt, e.executionId, e.typ, e.stepId) }
}
