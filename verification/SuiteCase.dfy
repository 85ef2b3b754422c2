/**
 Execution of one test case on its disposable target. The target's log lists what was
 attempted on it, in order; every call to the target may fail.
 */
module SuiteCase {
  import opened Options
  import opened SuiteTypes
  import opened LanguageMigrations

  /** What the database driver reported, as the failure category it falls into. */
  datatype Error = Error(kind: FailureKind, code: int)

  /** An operation can fail, and so can restoring its connection afterwards. */
  datatype OpError = NoError | Plain(error: Error) | WithCleanup(primary: Option<Error>, cleanup: Error)

  datatype Act = Did(op: Operation) | Statement(sql: string) | CleanedUp(op: Operation) | Closed

  datatype Batch = Batch(statements: seq<string>, transactional: bool)

  function TestFailure(stage: Stage, e: Error): CaseFailure { CaseFailure(e.kind, e.code, stage) }

  // ---------- what a case is meant to do ----------

  function StatementActs(statements: seq<string>): (acts: seq<Act>)
    ensures |acts| == |statements|
    ensures forall i | 0 <= i < |acts| :: acts[i] == Statement(statements[i])
  {
    seq(|statements|, i requires 0 <= i < |statements| => Statement(statements[i]))
  }

  function MigrationActs(migrations: seq<Migration>): seq<Act> {
    if migrations == [] then []
    else MigrationActs(migrations[..|migrations| - 1]) + StatementActs(migrations[|migrations| - 1].statements)
  }

  function BatchActs(batches: seq<Batch>): seq<Act> {
    if batches == [] then []
    else BatchActs(batches[..|batches| - 1]) + StatementActs(batches[|batches| - 1].statements)
  }

  function BoundTo(c: TestCase, i: nat): seq<Migration> {
    if i in c.migrations then c.migrations[i] else []
  }

  predicate SkippedSetup(c: TestCase, op: Operation) { c.kind.SchemaCase? && op.kind.Setup? }

  /** The main loop over the first n operations: schema setups are not repeated, version marks run their migrations. */
  function OperationActs(c: TestCase, n: nat): seq<Act>
    requires n <= |c.operations|
  {
    if n == 0 then []
    else
      var op := c.operations[n - 1];
      OperationActs(c, n - 1) +
      (if SkippedSetup(c, op) then []
       else if op.kind.VersionMark? then MigrationActs(BoundTo(c, n - 1))
       else [Did(op)])
  }

  /** Leading setup operations. */
  function SetupCount(ops: seq<Operation>): (n: nat)
    ensures n <= |ops|
    ensures forall i | 0 <= i < n :: ops[i].kind.Setup?
    ensures n < |ops| ==> !ops[n].kind.Setup?
  {
    if ops == [] || !ops[0].kind.Setup? then 0 else 1 + SetupCount(ops[1..])
  }

  function DidActs(ops: seq<Operation>): (acts: seq<Act>)
    ensures |acts| == |ops|
    ensures forall i | 0 <= i < |acts| :: acts[i] == Did(ops[i])
  {
    seq(|ops|, i requires 0 <= i < |ops| => Did(ops[i]))
  }

  /** Fixture cleanups, last declared first. */
  function CleanupActs(c: TestCase): (acts: seq<Act>)
    ensures |acts| == |c.cleanup|
    ensures forall i | 0 <= i < |acts| :: acts[i] == CleanedUp(c.cleanup[|c.cleanup| - 1 - i])
  {
    seq(|c.cleanup|, i requires 0 <= i < |c.cleanup| => CleanedUp(c.cleanup[|c.cleanup| - 1 - i]))
  }

  /** A schema case runs its leading setups, then the schema program. */
  function SchemaActs(c: TestCase, schema: seq<Batch>): seq<Act> {
    DidActs(c.operations[..SetupCount(c.operations)]) + BatchActs(schema)
  }

  function WorkActs(c: TestCase, schema: seq<Batch>): seq<Act> {
    (if c.kind.SchemaCase? then SchemaActs(c, schema) else []) + OperationActs(c, |c.operations|)
  }

  function Finished(c: TestCase, work: seq<Act>): seq<Act> { work + CleanupActs(c) + [Closed] }

  /** A result that says what happened: passed without any failure, or failed with one recorded. */
  predicate Settled(r: CaseResult) {
    && (r.outcome.Passed? || r.outcome.Failed?)
    && (r.outcome.Passed? ==> r.primary.None? && r.cleanup == [])
    && (r.outcome.Failed? ==> r.primary.Some? || r.cleanup != [])
  }

  /** Before cleanup: not failed yet, or failed with a reason. */
  predicate Accounted(r: CaseResult) {
    && (r.outcome.Passed? ==> r.primary.None? && r.cleanup == [])
    && (r.outcome.Failed? ==> r.primary.Some? || r.cleanup != [])
    && (r.primary.Some? ==> r.outcome.Failed?)
    && !r.outcome.Skipped?
  }

  /** Nothing has gone wrong so far, and the case is not finished. */
  predicate Clean(r: CaseResult) { r.outcome.NotRun? && r.primary.None? && r.cleanup == [] }

  /** What a case keeps once set: whether it started and whether it got a target. */
  predicate Kept(a: CaseResult, b: CaseResult) { a.started == b.started && a.executed == b.executed }

  function VersionsOf(ops: seq<Operation>, n: nat): seq<Version>
    requires n <= |ops|
  {
    if n == 0 then [] else VersionsOf(ops, n - 1) + if Marks(ops, n - 1) then [ops[n - 1].version] else []
  }

  predicate Checks(op: Operation) { op.kind.Assert? || op.kind.ExpectError? }

  function ChecksIn(ops: seq<Operation>, n: nat): nat
    requires n <= |ops|
  {
    if n == 0 then 0 else ChecksIn(ops, n - 1) + if Checks(ops[n - 1]) then 1 else 0
  }

  /** The result names every version reached, in order, and counts every check. */
  predicate Tallied(c: TestCase, r: CaseResult) {
    r.versions == VersionsOf(c.operations, |c.operations|) && r.assertions == ChecksIn(c.operations, |c.operations|)
  }

  /**
   What executing a case amounts to. A case that got a target did a prefix of its work in
   order, then every cleanup in reverse, then closed once; a passed case did all of its
   work, with no failure recorded. A case without a target touched nothing.
   */
  ghost predicate Ran(c: TestCase, schema: seq<Batch>, r: CaseResult, log: seq<Act>) {
    && Settled(r)
    && (!r.executed ==> log == [] && r.outcome.Failed?)
    && (r.executed ==> exists work :: work <= WorkActs(c, schema) && log == Finished(c, work))
    && (r.outcome.Passed? ==> r.executed && log == Finished(c, WorkActs(c, schema)) && Tallied(c, r))
  }

  // ---------- partial work is a prefix of the whole ----------

  lemma {:induction false} MigrationPrefix(migrations: seq<Migration>, i: nat)
    requires i <= |migrations|
    ensures MigrationActs(migrations[..i]) <= MigrationActs(migrations)
    decreases |migrations|
  {
    if i == |migrations| {
      assert migrations[..i] == migrations;
    } else {
      var shorter := migrations[..|migrations| - 1];
      MigrationPrefix(shorter, i);
      assert shorter[..i] == migrations[..i];
    }
  }

  lemma {:induction false} BatchPrefix(batches: seq<Batch>, i: nat)
    requires i <= |batches|
    ensures BatchActs(batches[..i]) <= BatchActs(batches)
    decreases |batches|
  {
    if i == |batches| {
      assert batches[..i] == batches;
    } else {
      var shorter := batches[..|batches| - 1];
      BatchPrefix(shorter, i);
      assert shorter[..i] == batches[..i];
    }
  }

  lemma {:induction false} OperationPrefix(c: TestCase, i: nat, n: nat)
    requires i <= n <= |c.operations|
    ensures OperationActs(c, i) <= OperationActs(c, n)
    decreases n
  {
    if i < n {
      OperationPrefix(c, i, n - 1);
    }
  }

  lemma NoMigrations(migrations: seq<Migration>)
    ensures MigrationActs(migrations[..0]) == []
  {}

  lemma MigrationsNext(migrations: seq<Migration>, i: nat)
    requires i < |migrations|
    ensures MigrationActs(migrations[..i + 1]) == MigrationActs(migrations[..i]) + StatementActs(migrations[i].statements)
  {
    assert migrations[..i + 1][..i] == migrations[..i];
  }

  lemma OperationsStart(c: TestCase)
    ensures OperationActs(c, 0) == [] && VersionsOf(c.operations, 0) == [] && ChecksIn(c.operations, 0) == 0
  {}

  lemma OperationsNext(c: TestCase, i: nat)
    requires i < |c.operations|
    ensures var op := c.operations[i];
            OperationActs(c, i + 1) == OperationActs(c, i) +
            (if SkippedSetup(c, op) then [] else if op.kind.VersionMark? then MigrationActs(BoundTo(c, i)) else [Did(op)])
    ensures VersionsOf(c.operations, i + 1) ==
            VersionsOf(c.operations, i) + if c.operations[i].kind.VersionMark? then [c.operations[i].version] else []
    ensures ChecksIn(c.operations, i + 1) == ChecksIn(c.operations, i) + if Checks(c.operations[i]) then 1 else 0
  {}

  lemma BatchesNext(batches: seq<Batch>, i: nat)
    requires i < |batches|
    ensures BatchActs(batches[..i + 1]) == BatchActs(batches[..i]) + StatementActs(batches[i].statements)
  {
    assert batches[..i + 1][..i] == batches[..i];
  }

  /** Stopping inside the next piece still leaves a prefix of the whole. */
  lemma StopsInside(before: seq<Act>, log: seq<Act>, done: seq<Act>, piece: seq<Act>, whole: seq<Act>)
    requires before + done <= log <= before + done + piece
    requires done + piece <= whole
    ensures before <= log <= before + whole
  {
    assert before + done + piece == before + (done + piece);
    forall i | 0 <= i < |log|
      ensures log[i] == (before + whole)[i]
    {
      assert log[i] == (before + (done + piece))[i];
    }
    forall i | 0 <= i < |before|
      ensures log[i] == before[i]
    {
      assert log[i] == (before + done)[i];
    }
  }

  // ---------- what a schema case runs ----------

  /** No setup after another kind of operation. */
  predicate SetupsFirst(ops: seq<Operation>) {
    forall i, j | 0 <= i < j < |ops| && ops[j].kind.Setup? :: ops[i].kind.Setup?
  }

  method ValidateSchemaSetup(c: TestCase) returns (ok: bool)
    ensures ok <==> (c.kind.SchemaCase? ==> SetupsFirst(c.operations))
  {
    if !c.kind.SchemaCase? {
      return true;
    }
    var started := false;
    for i := 0 to |c.operations|
      invariant started <==> exists k :: 0 <= k < i && !c.operations[k].kind.Setup?
      invariant forall a, b | 0 <= a < b < i && c.operations[b].kind.Setup? :: c.operations[a].kind.Setup?
    {
      var op := c.operations[i];
      if op.kind.Setup? && started {
        return false;
      }
      started := started || !op.kind.Setup?;
    }
    ok := true;
  }

  /** Operations attempted on the target, in order. */
  function Attempted(acts: seq<Act>): (ops: seq<Operation>)
    ensures |ops| <= |acts|
  {
    if acts == [] then []
    else
      var last := acts[|acts| - 1];
      Attempted(acts[..|acts| - 1]) + if last.Did? then [last.op] else []
  }

  lemma AttemptedNone(s: seq<Act>)
    requires s == []
    ensures Attempted(s) == []
  {}

  lemma AttemptedNext(s: seq<Act>, last: Act)
    ensures Attempted(s + [last]) == Attempted(s) + (if last.Did? then [last.op] else [])
  {
    assert (s + [last])[..|s|] == s;
  }

  lemma {:induction false} AttemptedConcat(a: seq<Act>, b: seq<Act>)
    ensures Attempted(a + b) == Attempted(a) + Attempted(b)
  {
    hide Attempted;
    if b == [] {
      assert a + b == a;
      AttemptedNone(b);
    } else {
      var most, last := b[..|b| - 1], b[|b| - 1];
      AttemptedConcat(a, most);
      AttemptedNext(a + most, last);
      AttemptedNext(most, last);
      assert a + b == (a + most) + [last] && b == most + [last];
    }
  }

  lemma {:induction false} AttemptedDids(ops: seq<Operation>)
    ensures Attempted(DidActs(ops)) == ops
  {
    if ops != [] {
      AttemptedDids(ops[..|ops| - 1]);
      assert DidActs(ops)[..|ops| - 1] == DidActs(ops[..|ops| - 1]);
    }
  }

  lemma {:induction false} AttemptedStatements(statements: seq<string>)
    ensures Attempted(StatementActs(statements)) == []
  {
    if statements != [] {
      AttemptedStatements(statements[..|statements| - 1]);
      assert StatementActs(statements)[..|statements| - 1] == StatementActs(statements[..|statements| - 1]);
    }
  }

  lemma {:induction false} AttemptedBatches(batches: seq<Batch>)
    ensures Attempted(BatchActs(batches)) == []
  {
    if batches != [] {
      var last := |batches| - 1;
      AttemptedBatches(batches[..last]);
      AttemptedStatements(batches[last].statements);
      AttemptedConcat(BatchActs(batches[..last]), StatementActs(batches[last].statements));
    }
  }

  /** The first n operations without their setups. */
  function NonSetups(ops: seq<Operation>, n: nat): (rest: seq<Operation>)
    requires n <= |ops|
    ensures |rest| <= n
  {
    if n == 0 then [] else NonSetups(ops, n - 1) + if ops[n - 1].kind.Setup? then [] else [ops[n - 1]]
  }

  lemma {:induction false} AttemptedOperations(c: TestCase, n: nat)
    requires c.kind.SchemaCase? && n <= |c.operations| && forall i | 0 <= i < |c.operations| :: !Marks(c.operations, i)
    ensures Attempted(OperationActs(c, n)) == NonSetups(c.operations, n)
  {
    if n > 0 {
      AttemptedOperations(c, n - 1);
      assert !Marks(c.operations, n - 1);
      if c.operations[n - 1].kind.Setup? {
        assert OperationActs(c, n) == OperationActs(c, n - 1);
      }
    }
  }

  lemma {:induction false} NonSetupsInOrder(ops: seq<Operation>, n: nat)
    requires n <= |ops| && SetupsFirst(ops)
    ensures NonSetups(ops, n) == if n <= SetupCount(ops) then [] else ops[SetupCount(ops)..n]
  {
    if n > 0 {
      NonSetupsInOrder(ops, n - 1);
    }
  }

  /** A setup after the leading ones is missing from both parts. */
  lemma {:induction false} NonSetupsLose(ops: seq<Operation>, j: nat, n: nat)
    requires n <= |ops|
    ensures |NonSetups(ops, n)| <= if n <= SetupCount(ops) then 0 else n - SetupCount(ops)
    ensures SetupCount(ops) <= j < n && ops[j].kind.Setup? ==> |NonSetups(ops, n)| < n - SetupCount(ops)
  {
    if n > 0 {
      NonSetupsLose(ops, j, n - 1);
    }
  }

  lemma SchemaCaseAttempts(c: TestCase, schema: seq<Batch>)
    requires c.kind.SchemaCase? && forall i | 0 <= i < |c.operations| :: !Marks(c.operations, i)
    ensures Attempted(WorkActs(c, schema)) ==
            c.operations[..SetupCount(c.operations)] + NonSetups(c.operations, |c.operations|)
  {
    hide Attempted, NonSetups, DidActs, BatchActs, OperationActs, SetupCount;
    var ops, setups := c.operations, DidActs(c.operations[..SetupCount(c.operations)]);
    AttemptedDids(ops[..SetupCount(ops)]);
    AttemptedBatches(schema);
    AttemptedConcat(setups, BatchActs(schema));
    AttemptedOperations(c, |ops|);
    AttemptedConcat(SchemaActs(c, schema), OperationActs(c, |ops|));
  }

  /** A schema case attempts exactly its operations in their order if and only if its setups come first. */
  lemma SchemaCaseRunsItsOperations(c: TestCase, schema: seq<Batch>)
    requires c.kind.SchemaCase? && forall i | 0 <= i < |c.operations| :: !Marks(c.operations, i)
    ensures Attempted(WorkActs(c, schema)) == c.operations <==> SetupsFirst(c.operations)
  {
    hide WorkActs, SetupCount, Attempted, NonSetups;
    var ops, k := c.operations, SetupCount(c.operations);
    SchemaCaseAttempts(c, schema);
    if SetupsFirst(ops) {
      NonSetupsInOrder(ops, |ops|);
    } else {
      var i, j :| 0 <= i < j < |ops| && ops[j].kind.Setup? && !ops[i].kind.Setup?;
      NonSetupsLose(ops, j, |ops|);
    }
  }

  // ---------- what a migration case executes ----------

  function Statements(acts: seq<Act>): seq<string> {
    if acts == [] then []
    else
      var last := acts[|acts| - 1];
      Statements(acts[..|acts| - 1]) + if last.Statement? then [last.sql] else []
  }

  function StatementsOf(migrations: seq<Migration>): seq<string> {
    if migrations == [] then []
    else StatementsOf(migrations[..|migrations| - 1]) + migrations[|migrations| - 1].statements
  }

  lemma StatementsNone(s: seq<Act>)
    requires s == []
    ensures Statements(s) == []
  {}

  lemma StatementsNext(s: seq<Act>, last: Act)
    ensures Statements(s + [last]) == Statements(s) + (if last.Statement? then [last.sql] else [])
  {
    assert (s + [last])[..|s|] == s;
  }

  lemma {:induction false} StatementsConcat(a: seq<Act>, b: seq<Act>)
    ensures Statements(a + b) == Statements(a) + Statements(b)
  {
    hide Statements;
    if b == [] {
      assert a + b == a;
      StatementsNone(b);
    } else {
      var most, last := b[..|b| - 1], b[|b| - 1];
      StatementsConcat(a, most);
      StatementsNext(a + most, last);
      StatementsNext(most, last);
      assert a + b == (a + most) + [last] && b == most + [last];
    }
  }

  lemma StatementsOfNone(s: seq<Migration>)
    requires s == []
    ensures StatementsOf(s) == []
  {}

  lemma StatementsOfNext(s: seq<Migration>, last: Migration)
    ensures StatementsOf(s + [last]) == StatementsOf(s) + last.statements
  {
    assert (s + [last])[..|s|] == s;
  }

  lemma {:induction false} StatementsOfConcat(a: seq<Migration>, b: seq<Migration>)
    ensures StatementsOf(a + b) == StatementsOf(a) + StatementsOf(b)
  {
    hide StatementsOf;
    if b == [] {
      assert a + b == a;
      StatementsOfNone(b);
    } else {
      var most, last := b[..|b| - 1], b[|b| - 1];
      StatementsOfConcat(a, most);
      StatementsOfNext(a + most, last);
      StatementsOfNext(most, last);
      assert a + b == (a + most) + [last] && b == most + [last];
    }
  }

  lemma {:induction false} StatementsBack(statements: seq<string>)
    ensures Statements(StatementActs(statements)) == statements
  {
    if statements != [] {
      StatementsBack(statements[..|statements| - 1]);
      assert StatementActs(statements)[..|statements| - 1] == StatementActs(statements[..|statements| - 1]);
    }
  }

  lemma {:induction false} MigrationStatements(migrations: seq<Migration>)
    ensures Statements(MigrationActs(migrations)) == StatementsOf(migrations)
  {
    if migrations != [] {
      var last := |migrations| - 1;
      MigrationStatements(migrations[..last]);
      StatementsBack(migrations[last].statements);
      StatementsConcat(MigrationActs(migrations[..last]), StatementActs(migrations[last].statements));
    }
  }

  lemma {:induction false} OperationStatements(c: TestCase, n: nat)
    requires n <= |c.operations| && forall i | Marks(c.operations, i) && i < n :: i in c.migrations
    ensures Statements(OperationActs(c, n)) == StatementsOf(Carried(c.operations, c.migrations, n))
  {
    if n > 0 {
      OperationStatements(c, n - 1);
      var op := c.operations[n - 1];
      var carried := Carried(c.operations, c.migrations, n - 1);
      if op.kind.VersionMark? {
        assert Marks(c.operations, n - 1);
        var migrations := c.migrations[n - 1];
        MigrationStatements(migrations);
        StatementsConcat(OperationActs(c, n - 1), MigrationActs(migrations));
        StatementsOfConcat(carried, migrations);
      } else if SkippedSetup(c, op) {
        assert OperationActs(c, n) == OperationActs(c, n - 1);
        assert Carried(c.operations, c.migrations, n) == carried;
      } else {
        assert OperationActs(c, n) == OperationActs(c, n - 1) + [Did(op)];
        assert Carried(c.operations, c.migrations, n) == carried;
      }
    }
  }

  lemma {:induction false} CleanupHasNoStatements(acts: seq<Act>)
    requires forall i | 0 <= i < |acts| :: acts[i].CleanedUp? || acts[i].Closed?
    ensures Statements(acts) == []
  {
    if acts != [] {
      CleanupHasNoStatements(acts[..|acts| - 1]);
    }
  }

  /**
   A finished migration case whose versions carry the manifest's first n entries executed
   exactly the statements of those entries, in manifest order.
   */
  lemma BoundCaseExecutesManifestPrefix(c: TestCase, schema: seq<Batch>, entries: seq<Entry>, n: nat)
    requires c.kind.MigrationCase? && n <= |entries| && Prepared(entries, 0, n)
    requires forall i | Marks(c.operations, i) :: i in c.migrations
    requires Carried(c.operations, c.migrations, |c.operations|) == Steps(entries, 0, n)
    ensures Statements(Finished(c, WorkActs(c, schema))) == StatementsOf(Steps(entries, 0, n))
  {
    hide Steps, StatementsOf, Statements, Carried, OperationActs;
    var work, tail := WorkActs(c, schema), CleanupActs(c) + [Closed];
    assert work == OperationActs(c, |c.operations|);
    OperationStatements(c, |c.operations|);
    CleanupHasNoStatements(tail);
    StatementsConcat(work, tail);
    assert Finished(c, work) == work + tail;
  }

  // ---------- the run of one case ----------

  class CaseRun {
    var result: CaseResult
    var log: seq<Act>

    constructor (c: TestCase)
      ensures result == InitialResult(c) && log == []
    {
      result := InitialResult(c);
      log := [];
    }

    method Fail(failure: CaseFailure)
      modifies this`result
      ensures result == old(result).(outcome := Failed, primary := Some(failure))
    {
      result := result.(outcome := Failed, primary := Some(failure));
    }

    /** One call to the target, which may fail. */
    method Attempt(act: Act) returns (err: OpError)
      modifies this`log
      ensures log == old(log) + [act]
    {
      log := log + [act];
      err := *;
    }

    method RecordOperationError(stage: Stage, err: OpError)
      requires !err.NoError? && Accounted(result) && !result.outcome.Passed?
      modifies this`result
      ensures Accounted(result) && result.outcome.Failed? && Kept(result, old(result))
      ensures result.versions == old(result.versions) && result.assertions == old(result.assertions)
      ensures result.cleanup == old(result.cleanup) +
                                (if err.WithCleanup? then [TestFailure(OperationCleanup, err.cleanup)] else [])
      ensures err.Plain? ==> result.primary == Some(TestFailure(stage, err.error))
      ensures err.WithCleanup? && err.primary.Some? ==> result.primary == Some(TestFailure(stage, err.primary.value))
    {
      var primary: Option<Error> := None;
      if err.WithCleanup? {
        result := result.(cleanup := result.cleanup + [TestFailure(OperationCleanup, err.cleanup)]);
        primary := err.primary;
      } else {
        primary := Some(err.error);
      }
      if primary.Some? {
        Fail(TestFailure(stage, primary.value));
      } else {
        result := result.(outcome := Failed);
      }
    }

    /** Statements in order, stopping at the first that fails or at an expired deadline. */
    method ExecuteStatements(statements: seq<string>, stage: Stage) returns (primary: Option<CaseFailure>)
      modifies this`log
      ensures primary.None? ==> log == old(log) + StatementActs(statements)
      ensures primary.Some? ==> primary.value.stage == stage
      ensures old(log) <= log <= old(log) + StatementActs(statements)
    {
      for i := 0 to |statements|
        invariant log == old(log) + StatementActs(statements)[..i]
      {
        var error: Error := *;
        var expired: bool := *;
        if expired {
          return Some(TestFailure(stage, error));
        }
        assert StatementActs(statements)[..i + 1] == StatementActs(statements)[..i] + [Statement(statements[i])];
        var err := Attempt(Statement(statements[i]));
        if !err.NoError? {
          return Some(TestFailure(stage, error));
        }
      }
      primary := None;
    }

    method ExecuteBatch(batch: Batch, stage: Stage) returns (primary: Option<CaseFailure>, cleanup: seq<CaseFailure>)
      modifies this`log
      ensures primary.None? ==> cleanup == [] && log == old(log) + StatementActs(batch.statements)
      ensures primary.Some? ==> primary.value.stage == stage && forall i | 0 <= i < |cleanup| :: cleanup[i].stage == Rollback
      ensures old(log) <= log <= old(log) + StatementActs(batch.statements)
    {
      cleanup := [];
      var error: Error := *;
      var usable: bool := *;
      if !usable {
        return Some(TestFailure(stage, error)), [];
      }
      primary := ExecuteStatements(batch.statements, stage);
      var ended: bool := *;
      if batch.transactional && !ended {
        if primary.None? {
          primary := Some(TestFailure(stage, error));
        } else {
          cleanup := [TestFailure(Rollback, error)];
        }
      }
    }

    method ExecuteSchemaSetup(c: TestCase) returns (ok: bool)
      requires Clean(result)
      modifies this
      ensures Kept(result, old(result)) && result.versions == old(result.versions) && result.assertions == old(result.assertions)
      ensures ok ==> Clean(result) && log == old(log) + DidActs(c.operations[..SetupCount(c.operations)])
      ensures !ok ==> Accounted(result) && result.outcome.Failed?
      ensures old(log) <= log <= old(log) + DidActs(c.operations[..SetupCount(c.operations)])
    {
      ghost var setups := DidActs(c.operations[..SetupCount(c.operations)]);
      for i := 0 to |c.operations|
        invariant Clean(result) && Kept(result, old(result))
        invariant result.versions == old(result.versions) && result.assertions == old(result.assertions)
        invariant i <= SetupCount(c.operations)
        invariant log == old(log) + setups[..i]
      {
        var op := c.operations[i];
        if !op.kind.Setup? {
          return true;
        }
        assert setups[..i + 1] == setups[..i] + [Did(op)];
        var err := Attempt(Did(op));
        if !err.NoError? {
          RecordOperationError(OpStage(op.kind), err);
          return false;
        }
      }
      ok := true;
    }

    method PrepareSchema(schema: seq<Batch>) returns (primary: Option<CaseFailure>, cleanup: seq<CaseFailure>)
      modifies this`log
      ensures primary.None? ==> cleanup == [] && log == old(log) + BatchActs(schema)
      ensures old(log) <= log <= old(log) + BatchActs(schema)
    {
      var ready: bool := *;
      if !ready {
        return Some(CaseFailure(OtherFailure("config"), 3, SchemaStage)), [];
      }
      for i := 0 to |schema|
        invariant log == old(log) + BatchActs(schema[..i])
      {
        BatchesNext(schema, i);
        BatchPrefix(schema, i + 1);
        primary, cleanup := ExecuteBatch(schema[i], SchemaStage);
        StopsInside(old(log), log, BatchActs(schema[..i]), StatementActs(schema[i].statements), BatchActs(schema));
        if primary.Some? || |cleanup| > 0 {
          return;
        }
      }
      assert schema[..|schema|] == schema;
      primary, cleanup := None, [];
    }

    method PrepareSchemaCase(c: TestCase, schema: seq<Batch>) returns (ok: bool)
      requires Clean(result)
      modifies this
      ensures Kept(result, old(result)) && result.versions == old(result.versions) && result.assertions == old(result.assertions)
      ensures ok ==> Clean(result) && log == old(log) + SchemaActs(c, schema)
      ensures !ok ==> Accounted(result) && result.outcome.Failed?
      ensures old(log) <= log <= old(log) + SchemaActs(c, schema)
    {
      ok := ExecuteSchemaSetup(c);
      if !ok {
        return;
      }
      var primary, cleanup := PrepareSchema(schema);
      result := result.(cleanup := result.cleanup + cleanup);
      if primary.Some? {
        Fail(primary.value);
      }
      ok := primary.None? && cleanup == [];
    }

    /** The migrations bound to the mark at `index`, file by file. */
    method ExecuteVersion(c: TestCase, index: nat) returns (ok: bool)
      requires Clean(result) && index < |c.operations|
      modifies this
      ensures Kept(result, old(result))
      ensures ok ==> Clean(result) && log == old(log) + MigrationActs(BoundTo(c, index))
      ensures ok ==> result.versions == old(result.versions) + [c.operations[index].version]
      ensures result.assertions == old(result.assertions)
      ensures !ok ==> Accounted(result) && result.outcome.Failed?
      ensures old(log) <= log <= old(log) + MigrationActs(BoundTo(c, index))
    {
      hide MigrationActs, StatementActs;
      var error: Error := *;
      var intact: bool := *;
      if !intact {
        Fail(TestFailure(Inputs, error));
        return false;
      }
      var migrations := BoundTo(c, index);
      NoMigrations(migrations);
      for i := 0 to |migrations|
        invariant Clean(result) && Kept(result, old(result))
        invariant result.versions == old(result.versions) && result.assertions == old(result.assertions)
        invariant log == old(log) + MigrationActs(migrations[..i])
      {
        var migration := migrations[i];
        MigrationsNext(migrations, i);
        MigrationPrefix(migrations, i + 1);
        var primary, cleanup := ExecuteBatch(Batch(migration.statements, migration.transactional), MigrationStage);
        StopsInside(old(log), log, MigrationActs(migrations[..i]), StatementActs(migration.statements), MigrationActs(migrations));
        result := result.(cleanup := result.cleanup + cleanup);
        if primary.Some? {
          Fail(primary.value);
          return false;
        }
        if |cleanup| > 0 {
          return false;
        }
      }
      assert migrations[..|migrations|] == migrations;
      result := result.(versions := result.versions + [c.operations[index].version]);
      ok := true;
    }

    method ExecuteOperations(c: TestCase)
      requires Clean(result) && result.versions == [] && result.assertions == 0
      modifies this
      ensures Kept(result, old(result))
      ensures Accounted(result) && !result.outcome.NotRun?
      ensures result.outcome.Passed? ==> log == old(log) + OperationActs(c, |c.operations|)
      ensures result.outcome.Passed? ==> Tallied(c, result)
      ensures old(log) <= log <= old(log) + OperationActs(c, |c.operations|)
    {
      hide MigrationActs, OperationActs, VersionsOf, ChecksIn, BoundTo;
      OperationsStart(c);
      for i := 0 to |c.operations|
        invariant Clean(result) && Kept(result, old(result))
        invariant log == old(log) + OperationActs(c, i)
        invariant result.versions == VersionsOf(c.operations, i) && result.assertions == ChecksIn(c.operations, i)
      {
        var op := c.operations[i];
        OperationsNext(c, i);
        OperationPrefix(c, i + 1, |c.operations|);
        if SkippedSetup(c, op) {
          continue;
        }
        var error: Error := *;
        var expired: bool := *;
        if expired {
          Fail(TestFailure(OpStage(op.kind), error));
          return;
        }
        if op.kind.VersionMark? {
          var ok := ExecuteVersion(c, i);
          StopsInside(old(log), log, OperationActs(c, i), MigrationActs(BoundTo(c, i)), OperationActs(c, |c.operations|));
          if !ok {
            return;
          }
          continue;
        }
        if Checks(op) {
          result := result.(assertions := result.assertions + 1);
        }
        var err := Attempt(Did(op));
        StopsInside(old(log), log, OperationActs(c, i), [Did(op)], OperationActs(c, |c.operations|));
        if !err.NoError? {
          RecordOperationError(OpStage(op.kind), err);
          return;
        }
      }
      var error: Error := *;
      var expired: bool := *;
      if expired {
        Fail(TestFailure(WholeCase, error));
        return;
      }
      result := result.(outcome := Passed);
    }

    method AppendFixtureCleanupFailures(err: OpError)
      modifies this`result
      ensures result == old(result).(cleanup := result.cleanup)
      ensures if err.NoError? then result == old(result) else |old(result.cleanup)| < |result.cleanup|
    {
      if err.WithCleanup? {
        result := result.(cleanup := result.cleanup + [TestFailure(CleanupConnection, err.cleanup)]);
        if err.primary.Some? {
          result := result.(cleanup := result.cleanup + [TestFailure(CleanupStage, err.primary.value)]);
        }
      } else if err.Plain? {
        result := result.(cleanup := result.cleanup + [TestFailure(CleanupStage, err.error)]);
      }
    }

    /** Runs on every path once the target exists: all cleanups last to first, then one close. */
    method CleanCase(c: TestCase)
      requires Accounted(result) && !result.outcome.NotRun?
      modifies this
      ensures Kept(result, old(result))
      ensures log == old(log) + CleanupActs(c) + [Closed]
      ensures Settled(result)
      ensures result.outcome.Passed? ==> result == old(result)
    {
      var i := |c.cleanup|;
      while i > 0
        invariant 0 <= i <= |c.cleanup|
        invariant log == old(log) + CleanupActs(c)[..|c.cleanup| - i]
        invariant result == old(result).(cleanup := result.cleanup)
        invariant result == old(result) || |old(result.cleanup)| < |result.cleanup|
      {
        i := i - 1;
        ghost var done := |c.cleanup| - i - 1;
        assert CleanupActs(c)[..done + 1] == CleanupActs(c)[..done] + [CleanedUp(c.cleanup[i])];
        var err := Attempt(CleanedUp(c.cleanup[i]));
        AppendFixtureCleanupFailures(err);
      }
      assert CleanupActs(c)[..|c.cleanup|] == CleanupActs(c);
      var error: Error := *;
      var err := Attempt(Closed);
      if !err.NoError? {
        result := result.(cleanup := result.cleanup + [TestFailure(CleanupStage, error)]);
      }
      if |result.cleanup| > 0 {
        result := result.(outcome := Failed);
      }
    }

    method RecordProvisionFailure(error: Error, retained: nat)
      requires result.outcome.NotRun? && result.cleanup == []
      modifies this`result
      ensures Settled(result) && result.outcome.Failed? && Kept(result, old(result))
      ensures result.primary == Some(TestFailure(Provision, error)) && |result.cleanup| == retained
    {
      Fail(TestFailure(Provision, error));
      for i := 0 to retained
        invariant Settled(result) && result.outcome.Failed? && Kept(result, old(result))
        invariant result.primary == Some(TestFailure(Provision, error)) && |result.cleanup| == i
      {
        result := result.(cleanup := result.cleanup + [CaseFailure(CleanupFailure, 7, ProvisionCleanup)]);
      }
    }

    /** The whole case, from the check of its inputs to the close of its target. */
    method ExecuteCase(c: TestCase, schema: seq<Batch>)
      requires result == InitialResult(c) && c.skip == "" && log == []
      modifies this
      ensures Ran(c, schema, result, log)
    {
      hide SchemaActs, OperationActs, CleanupActs, VersionsOf, ChecksIn;
      var error: Error := *;
      var intact: bool := *;
      if !intact {
        Fail(TestFailure(Inputs, error));
        return;
      }
      result := result.(started := true);
      var created: bool := *;
      if !created {
        var retained: nat := *;
        RecordProvisionFailure(error, retained);
        return;
      }
      result := result.(executed := true);
      ghost var schemaActs: seq<Act> := if c.kind.SchemaCase? then SchemaActs(c, schema) else [];
      ghost var operationActs := OperationActs(c, |c.operations|);
      assert WorkActs(c, schema) == schemaActs + operationActs;
      if c.kind.SchemaCase? {
        var ok := PrepareSchemaCase(c, schema);
        if !ok {
          ghost var work := log;
          assert work <= WorkActs(c, schema);
          CleanCase(c);
          assert log == Finished(c, work);
          return;
        }
      }
      assert log == schemaActs;
      ExecuteOperations(c);
      ghost var work := log;
      assert work <= WorkActs(c, schema);
      CleanCase(c);
      assert log == Finished(c, work);
    }
  }

  /**
   Binding a migration case and executing it. If it is bound and passes, exactly the
   statements of the manifest's entries up to its last declared version were executed,
   in manifest order.
   */
  method BindAndExecute(c: TestCase, snapshot: Snapshot, schema: seq<Batch>)
    returns (bound: Option<TestCase>, result: CaseResult, log: seq<Act>)
    requires c.skip == ""
    ensures bound.Some? <==>
      c.kind.MigrationCase? && snapshot.intact && Linear(snapshot.entries) && Bindable(c.operations, snapshot.entries)
    ensures bound.None? ==> log == [] && result == InitialResult(c)
    ensures bound.Some? ==> Ran(bound.value, schema, result, log)
    ensures bound.Some? && result.outcome.Passed? ==>
      var n := Reached(c.operations, snapshot.entries, |c.operations|);
      Prepared(snapshot.entries, 0, n) && Statements(log) == StatementsOf(Steps(snapshot.entries, 0, n))
  {
    hide Bindable, Linear, Carried, Steps, Statements, StatementsOf, Reached, Executable, Prepared, WorkActs, Tallied;
    bound := BindMigrations(c, snapshot);
    if bound.None? {
      return None, InitialResult(c), [];
    }
    var run := new CaseRun(bound.value);
    run.ExecuteCase(bound.value, schema);
    result, log := run.result, run.log;
    if result.outcome.Passed? {
      var n := Reached(c.operations, snapshot.entries, |c.operations|);
      BoundCaseExecutesManifestPrefix(bound.value, schema, snapshot.entries, n);
    }
  }
}
