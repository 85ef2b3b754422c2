/** What the parallel test-suite runner works on and reports. */
module SuiteTypes {
  import opened Options

  datatype OpKind = Setup | Fixture | Exec | Seed | Assert | ExpectError | VersionMark

  /** A parsed version, as its place in the version order; versions compare equal only when they are the same. */
  type Version = int

  /** `version` is what a `VersionMark` of a migration test moves to. */
  datatype Operation = Operation(kind: OpKind, sql: string, version: Version)

  /** One manifest entry bound to a test: its file's statements and whether they share a transaction. */
  datatype Migration = Migration(version: Version, file: string, transactional: bool, statements: seq<string>)

  datatype CaseKind = SchemaCase | MigrationCase | OtherCase(text: string)

  datatype TestCase = TestCase(
    file: string,
    name: string,
    kind: CaseKind,
    skip: string,
    operations: seq<Operation>,
    cleanup: seq<Operation>,
    migrations: map<nat, seq<Migration>>,
    migrationDigest: string)

  datatype Outcome = NotRun | Passed | Failed | Skipped

  /** Where a case failed. */
  datatype Stage = Inputs | Provision | ProvisionCleanup | SchemaStage | MigrationStage | OpStage(kind: OpKind)
                 | OperationCleanup | Rollback | CleanupConnection | CleanupStage | WholeCase | WholeSuite | Selection

  datatype FailureKind = ValidationFailure | CleanupFailure | OtherFailure(text: string)

  datatype CaseFailure = CaseFailure(kind: FailureKind, code: int, stage: Stage)

  datatype CaseResult = CaseResult(
    outcome: Outcome,
    started: bool,
    executed: bool,
    versions: seq<Version>,
    assertions: nat,
    primary: Option<CaseFailure>,
    cleanup: seq<CaseFailure>)

  function InitialResult(c: TestCase): CaseResult {
    CaseResult(if c.skip != "" then Skipped else NotRun, false, false, [], 0, None, [])
  }

  function InitialResults(cases: seq<TestCase>): (out: seq<CaseResult>)
    ensures |out| == |cases|
    ensures forall i | 0 <= i < |cases| :: out[i] == InitialResult(cases[i])
  {
    seq(|cases|, i requires 0 <= i < |cases| => InitialResult(cases[i]))
  }
}
