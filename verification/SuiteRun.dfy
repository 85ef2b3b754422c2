/** A whole suite: validation, the scheduled cases, the counts and the verdict. */
module SuiteRun {
  import opened Options
  import opened SuiteTypes
  import opened SuiteSchedule
  import opened SuiteCase

  datatype Runner = Runner(parallel: int, timeout: int, cleanupTimeout: int, hasFactory: bool, schemaReady: bool)

  datatype SuiteResult = SuiteResult(
    selected: nat, executed: nat, passed: nat, failed: nat, skipped: nat, notRun: nat, cases: seq<CaseResult>)

  function SelectionFailure(): CaseFailure { CaseFailure(ValidationFailure, 5, Selection) }

  function CaseIdentity(c: TestCase): string { c.file + "::" + c.name }

  predicate Parsed(c: TestCase) { c.name != "" && (c.kind.SchemaCase? || c.kind.MigrationCase?) }

  /** Parsed cases, no two with the same identity, and at least one to run. */
  ghost predicate RunnableCases(cases: seq<TestCase>) {
    && (forall i | 0 <= i < |cases| :: Parsed(cases[i]))
    && (forall i, j | 0 <= i < j < |cases| :: CaseIdentity(cases[i]) != CaseIdentity(cases[j]))
    && exists i :: 0 <= i < |cases| && cases[i].skip == ""
  }

  method ValidateRunnableCases(cases: seq<TestCase>) returns (ok: bool)
    ensures ok <==> RunnableCases(cases)
  {
    hide CaseIdentity;
    var runnable := 0;
    var seen: set<string> := {};
    for i := 0 to |cases|
      invariant forall k | 0 <= k < i :: Parsed(cases[k]) && CaseIdentity(cases[k]) in seen
      invariant forall id | id in seen :: exists k :: 0 <= k < i && CaseIdentity(cases[k]) == id
      invariant forall k, j | 0 <= k < j < i :: CaseIdentity(cases[k]) != CaseIdentity(cases[j])
      invariant 0 <= runnable
      invariant runnable > 0 <==> exists k :: 0 <= k < i && cases[k].skip == ""
    {
      var c := cases[i];
      if !Parsed(c) {
        return false;
      }
      if CaseIdentity(c) in seen {
        return false;
      }
      seen := seen + {CaseIdentity(c)};
      if c.skip == "" {
        runnable := runnable + 1;
      }
    }
    ok := runnable > 0;
  }

  predicate HasProgram(r: Runner, c: TestCase) {
    (c.kind.SchemaCase? ==> r.schemaReady) && (c.kind.MigrationCase? ==> c.migrationDigest != "")
  }

  ghost predicate Acceptable(r: Runner, cases: seq<TestCase>) {
    && 1 <= r.parallel <= 32 && 0 <= r.timeout && 0 <= r.cleanupTimeout && r.hasFactory
    && RunnableCases(cases)
    && forall i | 0 <= i < |cases| :: HasProgram(r, cases[i])
  }

  method Validate(r: Runner, cases: seq<TestCase>) returns (ok: bool)
    ensures ok <==> Acceptable(r, cases)
  {
    if r.parallel < 1 || r.parallel > 32 || r.timeout < 0 || r.cleanupTimeout < 0 {
      return false;
    }
    ok := ValidateRunnableCases(cases);
    if !ok || !r.hasFactory {
      return false;
    }
    for i := 0 to |cases|
      invariant forall k | 0 <= k < i :: HasProgram(r, cases[k])
    {
      if !HasProgram(r, cases[i]) {
        return false;
      }
    }
  }

  // ---------- counting ----------

  function CountOutcome(results: seq<CaseResult>, o: Outcome): (count: nat)
    ensures count <= |results|
  {
    if results == [] then 0
    else CountOutcome(results[..|results| - 1], o) + if results[|results| - 1].outcome == o then 1 else 0
  }

  function CountExecuted(results: seq<CaseResult>): nat {
    if results == [] then 0
    else CountExecuted(results[..|results| - 1]) + if results[|results| - 1].executed then 1 else 0
  }

  /** Counts that say how many results have each outcome; every case falls under exactly one. */
  ghost predicate Counted(s: SuiteResult) {
    && s.passed == CountOutcome(s.cases, Passed) && s.failed == CountOutcome(s.cases, Failed)
    && s.skipped == CountOutcome(s.cases, Skipped) && s.notRun == CountOutcome(s.cases, NotRun)
    && s.executed == CountExecuted(s.cases)
    && s.passed + s.failed + s.skipped + s.notRun == |s.cases|
  }

  method CountSuiteOutcomes(cases: seq<CaseResult>) returns (s: SuiteResult)
    ensures Counted(s) && s.cases == cases && s.selected == |cases|
  {
    s := SuiteResult(|cases|, 0, 0, 0, 0, 0, cases);
    for i := 0 to |cases|
      invariant s.cases == cases && s.selected == |cases|
      invariant s.passed == CountOutcome(cases[..i], Passed) && s.failed == CountOutcome(cases[..i], Failed)
      invariant s.skipped == CountOutcome(cases[..i], Skipped) && s.notRun == CountOutcome(cases[..i], NotRun)
      invariant s.executed == CountExecuted(cases[..i])
      invariant s.passed + s.failed + s.skipped + s.notRun == i
    {
      assert cases[..i + 1][..i] == cases[..i];
      if cases[i].executed {
        s := s.(executed := s.executed + 1);
      }
      match cases[i].outcome {
        case Passed => s := s.(passed := s.passed + 1);
        case Failed => s := s.(failed := s.failed + 1);
        case Skipped => s := s.(skipped := s.skipped + 1);
        case NotRun => s := s.(notRun := s.notRun + 1);
      }
    }
    assert cases[..|cases|] == cases;
  }

  // ---------- the verdict ----------

  function CaseOutcomeFailure(r: CaseResult): Option<CaseFailure> {
    if r.primary.Some? then r.primary
    else if |r.cleanup| > 0 then Some(CaseFailure(CleanupFailure, 7, r.cleanup[0].stage))
    else None
  }

  /** The failure of the first case, in suite order, that has one. */
  function FirstFailure(results: seq<CaseResult>, from: nat): (failure: Option<CaseFailure>)
    requires from <= |results|
    ensures failure.None? <==> forall i | from <= i < |results| :: CaseOutcomeFailure(results[i]).None?
    decreases |results| - from
  {
    if from == |results| then None
    else if CaseOutcomeFailure(results[from]).Some? then CaseOutcomeFailure(results[from])
    else FirstFailure(results, from + 1)
  }

  /** Every case was executed as `CaseRun.ExecuteCase` guarantees, leaving these logs on the targets. */
  ghost predicate Executed(suite: Suite, schema: seq<Batch>, logs: nat -> seq<Act>) {
    forall i: nat | Runnable(suite, i) :: Ran(suite.cases[i], schema, suite.outcome(i), logs(i))
  }

  ghost predicate Settles(suite: Suite) {
    forall i: nat | Runnable(suite, i) :: Settled(suite.outcome(i))
  }

  lemma ExecutedSettles(suite: Suite, schema: seq<Batch>, logs: nat -> seq<Act>)
    requires Executed(suite, schema, logs)
    ensures Settles(suite)
  {
    forall i: nat | Runnable(suite, i)
      ensures Settled(suite.outcome(i))
    {
      assert Ran(suite.cases[i], schema, suite.outcome(i), logs(i));
    }
  }

  /** The target of every runnable case saw all of its work in order, its cleanups in reverse and one close. */
  ghost predicate AllWorkDone(suite: Suite, schema: seq<Batch>, logs: nat -> seq<Act>) {
    forall i: nat | Runnable(suite, i) :: logs(i) == Finished(suite.cases[i], WorkActs(suite.cases[i], schema))
  }

  lemma PassedMeansWorkDone(suite: Suite, schema: seq<Batch>, logs: nat -> seq<Act>)
    requires Executed(suite, schema, logs)
    requires forall i | 0 <= i < |suite.cases| :: SkippedOrPassed(Sequential(suite)[i])
    ensures AllWorkDone(suite, schema, logs)
  {
    hide Finished, WorkActs, Tallied;
    forall i: nat | Runnable(suite, i)
      ensures logs(i) == Finished(suite.cases[i], WorkActs(suite.cases[i], schema))
    {
      assert Ran(suite.cases[i], schema, suite.outcome(i), logs(i));
      assert SkippedOrPassed(Sequential(suite)[i]);
    }
  }

  predicate SkippedOrPassed(r: CaseResult) { r.outcome.Skipped? || r.outcome.Passed? }

  /** The results of an uncancelled run have no failure exactly when all are skipped or passed. */
  lemma NoFailureMeansAllPassed(suite: Suite)
    requires Settles(suite)
    ensures FirstFailure(Sequential(suite), 0).None? <==>
            forall i | 0 <= i < |suite.cases| :: SkippedOrPassed(Sequential(suite)[i])
  {
    var results := Sequential(suite);
    forall i | 0 <= i < |results|
      ensures CaseOutcomeFailure(results[i]).None? <==> SkippedOrPassed(results[i])
    {
      if Runnable(suite, i) {
        assert Settled(suite.outcome(i));
      }
    }
  }

  lemma {:induction false} CountsOne(results: seq<CaseResult>, i: nat, o: Outcome)
    requires i < |results| && results[i].outcome == o
    ensures CountOutcome(results, o) >= 1
  {
    if i < |results| - 1 {
      CountsOne(results[..|results| - 1], i, o);
    }
  }

  /**
   The suite's verdict. Whatever the interleaving and wherever a cancellation falls, the
   counts add up to the selected cases. Without cancellation the results and the reported
   failure are those of the sequential run, and there is no failure exactly when the suite
   is acceptable and every case is skipped or passed, which then includes a passed one.
   Then every runnable case's target saw all of its work, its cleanups and one close.
   */
  method Run(r: Runner, suite: Suite, steady: bool, ghost schema: seq<Batch>, ghost logs: nat -> seq<Act>)
    returns (s: SuiteResult, err: Option<CaseFailure>)
    requires Executed(suite, schema, logs)
    ensures s.selected == |suite.cases| && Counted(s) && |s.cases| == s.selected
    ensures s.passed + s.failed + s.skipped + s.notRun == s.selected
    ensures !Acceptable(r, suite.cases) ==> err == Some(SelectionFailure()) && s.cases == InitialResults(suite.cases)
    ensures Acceptable(r, suite.cases) && steady ==>
              s.cases == Sequential(suite) && err == FirstFailure(Sequential(suite), 0)
    ensures err.None? ==> Acceptable(r, suite.cases) && s.cases == Sequential(suite)
    ensures err.None? ==> s.passed >= 1 && forall i | 0 <= i < |s.cases| :: SkippedOrPassed(s.cases[i])
    ensures err.None? ==> AllWorkDone(suite, schema, logs)
    ensures Acceptable(r, suite.cases) && steady && (forall i | 0 <= i < |s.cases| :: SkippedOrPassed(s.cases[i])) ==>
              err.None?
  {
    hide RunnableCases, Counted, HasProgram, FirstFailure, Executed, AllWorkDone, Settles;
    ExecutedSettles(suite, schema, logs);
    var ok := Validate(r, suite.cases);
    if !ok {
      s := CountSuiteOutcomes(InitialResults(suite.cases));
      CountsAddUp(s);
      return s, Some(SelectionFailure());
    }
    var results, cancelled := Schedule(suite, r.parallel, steady);
    s := CountSuiteOutcomes(results);
    CountsAddUp(s);
    var late: bool := *;
    if cancelled || (late && !steady) {
      var failure: CaseFailure := *;
      return s, Some(failure);
    }
    NoFailureMeansAllPassed(suite);
    err := ReportFirst(results);
    if err.None? {
      SomethingPassed(suite, s);
      PassedMeansWorkDone(suite, schema, logs);
    }
  }

  lemma CountsAddUp(s: SuiteResult)
    requires Counted(s)
    ensures s.passed + s.failed + s.skipped + s.notRun == |s.cases|
  {}

  lemma SomethingPassed(suite: Suite, s: SuiteResult)
    requires Settles(suite) && RunnableCases(suite.cases) && s.cases == Sequential(suite) && Counted(s)
    requires forall i | 0 <= i < |s.cases| :: SkippedOrPassed(s.cases[i])
    ensures s.passed >= 1
  {
    var i :| 0 <= i < |suite.cases| && suite.cases[i].skip == "";
    assert Runnable(suite, i) && Settled(suite.outcome(i)) && SkippedOrPassed(s.cases[i]);
    CountsOne(s.cases, i, Passed);
  }

  method ReportFirst(results: seq<CaseResult>) returns (err: Option<CaseFailure>)
    ensures err == FirstFailure(results, 0)
  {
    for i := 0 to |results|
      invariant FirstFailure(results, 0) == FirstFailure(results, i)
    {
      var failure := CaseOutcomeFailure(results[i]);
      if failure.Some? {
        return failure;
      }
    }
    err := None;
  }
}
