/**
 Deciding from the history rows of one artifact whether every step was confirmed in one
 attempt. The query gives no order, so the answer must not depend on it.
 */
module CompletionHistory {
  import opened Options
  import opened ExecutionTypes

  datatype Row = Row(
    id: string, hash: string, phaseId: string, mode: Transaction,
    executionId: string, target: string, planDigest: string, bundleDigest: string,
    attempt: int, confirmed: bool)

  /**
   What the query gave. A row is `None` when it does not scan; `whole` is false when the
   read ended early.
   */
  datatype History = NoBindings | NoConnection | Rows(rows: seq<Option<Row>>, whole: bool)

  datatype Answer = Attempt(attempt: int) | Ineligible | Unavailable | Invalid | Incomplete

  // ---------- the plan's bindings ----------

  /** The step an identifier stands for: the last one declared with it. */
  function StepFor(steps: seq<Step>, id: string): (s: Option<Step>)
    ensures s.Some? ==> s.value in steps && s.value.id == id
    ensures s.None? <==> forall i | 0 <= i < |steps| :: steps[i].id != id
  {
    if steps == [] then None
    else if steps[|steps| - 1].id == id then Some(steps[|steps| - 1])
    else StepFor(steps[..|steps| - 1], id)
  }

  /** The phase a step belongs to: the last one that lists it. */
  function PhaseFor(phases: seq<Phase>, id: string): (p: Option<Phase>)
    ensures p.Some? ==> p.value in phases && id in p.value.stepIds
    ensures p.None? <==> forall i | 0 <= i < |phases| :: id !in phases[i].stepIds
  {
    if phases == [] then None
    else if id in phases[|phases| - 1].stepIds then Some(phases[|phases| - 1])
    else PhaseFor(phases[..|phases| - 1], id)
  }

  ghost predicate IndexesSteps(m: map<string, Step>, steps: seq<Step>) {
    forall id :: StepFor(steps, id) == if id in m then Some(m[id]) else None
  }

  ghost predicate IndexesPhases(m: map<string, Phase>, phases: seq<Phase>) {
    forall id :: PhaseFor(phases, id) == if id in m then Some(m[id]) else None
  }

  method HistoryBindings(a: Artifact) returns (steps: map<string, Step>, phases: map<string, Phase>)
    ensures IndexesSteps(steps, a.steps) && IndexesPhases(phases, a.phases)
  {
    hide IndexesSteps, IndexesPhases, Overlaid;
    steps, phases := map[], map[];
    NothingIndexed();
    assert a.steps[..0] == [] && a.phases[..0] == [];
    for i := 0 to |a.steps|
      invariant IndexesSteps(steps, a.steps[..i])
    {
      IndexStep(steps, a.steps, i);
      steps := steps[a.steps[i].id := a.steps[i]];
    }
    assert a.steps[..|a.steps|] == a.steps;
    for i := 0 to |a.phases|
      invariant IndexesPhases(phases, a.phases[..i])
    {
      ghost var before := phases;
      var p := a.phases[i];
      NothingOverlaid(phases, p);
      for j := 0 to |p.stepIds|
        invariant Overlaid(phases, before, p, j)
      {
        OverlayNext(phases, before, p, j);
        phases := phases[p.stepIds[j] := p];
      }
      IndexPhase(before, phases, a.phases, i);
    }
    assert a.phases[..|a.phases|] == a.phases;
  }

  /** `m` with the first j steps of a phase pointing to it. */
  ghost predicate Overlaid(m: map<string, Phase>, before: map<string, Phase>, p: Phase, j: nat)
    requires j <= |p.stepIds|
  {
    && (forall id :: id in m <==> id in before || id in p.stepIds[..j])
    && (forall id | id in m :: m[id] == if id in p.stepIds[..j] then p else before[id])
  }

  lemma NothingIndexed()
    ensures IndexesSteps(map[], []) && IndexesPhases(map[], [])
  {}

  lemma NothingOverlaid(m: map<string, Phase>, p: Phase)
    ensures Overlaid(m, m, p, 0)
  {}

  lemma OverlayNext(m: map<string, Phase>, before: map<string, Phase>, p: Phase, j: nat)
    requires j < |p.stepIds| && Overlaid(m, before, p, j)
    ensures Overlaid(m[p.stepIds[j] := p], before, p, j + 1)
  {
    assert p.stepIds[..j + 1] == p.stepIds[..j] + [p.stepIds[j]];
  }

  lemma IndexStep(m: map<string, Step>, steps: seq<Step>, i: nat)
    requires i < |steps| && IndexesSteps(m, steps[..i])
    ensures IndexesSteps(m[steps[i].id := steps[i]], steps[..i + 1])
  {
    assert steps[..i + 1][..i] == steps[..i];
  }

  lemma IndexPhase(before: map<string, Phase>, m: map<string, Phase>, phases: seq<Phase>, i: nat)
    requires i < |phases| && IndexesPhases(before, phases[..i]) && Overlaid(m, before, phases[i], |phases[i].stepIds|)
    ensures IndexesPhases(m, phases[..i + 1])
  {
    assert phases[..i + 1][..i] == phases[..i];
    assert phases[i].stepIds[..|phases[i].stepIds|] == phases[i].stepIds;
  }

  // ---------- what the rows must say ----------

  predicate MatchesStep(b: Row, s: Step, p: Phase) {
    && s.id != "" && p.id != "" && !s.kind.Topology?
    && b.id == s.id && b.hash == s.hash && b.phaseId == p.id && b.mode == p.transaction
  }

  predicate MatchesExecution(b: Row, a: Artifact) {
    && b.executionId == a.digest && b.target == TargetOf(a)
    && b.planDigest == a.planDigest && b.bundleDigest == a.bundleDigest
  }

  /** A confirmed row of a step of this plan, in a real attempt. */
  predicate Good(a: Artifact, row: Option<Row>) {
    && row.Some? && row.value.confirmed && row.value.attempt >= 1
    && var s, p := StepFor(a.steps, row.value.id), PhaseFor(a.phases, row.value.id);
       s.Some? && p.Some? && MatchesStep(row.value, s.value, p.value) && MatchesExecution(row.value, a)
  }

  predicate Agree(x: Option<Row>, y: Option<Row>)
    requires x.Some? && y.Some?
  {
    x.value.attempt == y.value.attempt && x.value.id != y.value.id
  }

  ghost predicate AllGood(a: Artifact, rows: seq<Option<Row>>) {
    && (forall i | 0 <= i < |rows| :: Good(a, rows[i]))
    && (forall i, j | 0 <= i < j < |rows| :: Agree(rows[i], rows[j]))
  }

  ghost predicate Confirms(rows: seq<Option<Row>>, id: string) {
    exists i :: 0 <= i < |rows| && rows[i].Some? && rows[i].value.id == id
  }

  ghost predicate CoversPlan(a: Artifact, rows: seq<Option<Row>>) {
    forall k | 0 <= k < |a.steps| :: Confirms(rows, a.steps[k].id)
  }

  /** The answer the rows deserve. */
  ghost function Judge(a: Artifact, h: History): Answer {
    match h
    case NoBindings => Ineligible
    case NoConnection => Unavailable
    case Rows(rows, whole) =>
      if !AllGood(a, rows) then Invalid
      else if !whole then Unavailable
      else if !CoversPlan(a, rows) then Incomplete
      else Attempt(if rows == [] then 0 else rows[0].value.attempt)
  }

  // ---------- the read ----------

  ghost predicate SeenRows(rows: seq<Option<Row>>, n: nat, seen: set<string>, attempt: int)
    requires n <= |rows|
  {
    && (forall i | 0 <= i < n :: rows[i].Some? && rows[i].value.id in seen && rows[i].value.attempt == attempt)
    && (forall id | id in seen :: Confirms(rows[..n], id))
    && (n == 0 ==> attempt == 0)
  }

  lemma SeenRowsNext(rows: seq<Option<Row>>, n: nat, seen: set<string>, attempt: int)
    requires n < |rows| && SeenRows(rows, n, seen, attempt) && rows[n].Some?
    requires n == 0 || rows[n].value.attempt == attempt
    ensures SeenRows(rows, n + 1, seen + {rows[n].value.id}, rows[n].value.attempt)
  {
    forall id | id in seen + {rows[n].value.id}
      ensures Confirms(rows[..n + 1], id)
    {
      if id == rows[n].value.id {
        assert rows[..n + 1][n].value.id == id;
      } else {
        var i :| 0 <= i < n && rows[..n][i].Some? && rows[..n][i].value.id == id;
        assert rows[..n + 1][i].value.id == id;
      }
    }
  }

  /** Good rows use identifiers of the plan only, so counting them is enough to see the plan covered. */
  lemma CountingCovers(a: Artifact, rows: seq<Option<Row>>, seen: set<string>, attempt: int, steps: map<string, Step>)
    requires AllGood(a, rows) && SeenRows(rows, |rows|, seen, attempt)
    requires IndexesSteps(steps, a.steps)
    ensures |seen| == |steps| <==> CoversPlan(a, rows)
  {
    hide AllGood, Good;
    assert rows[..|rows|] == rows;
    SeenInPlan(a, rows, seen, attempt, steps);
    assert |steps| == |steps.Keys|;
    if |seen| == |steps| {
      FullSubset(seen, steps.Keys);
      forall k | 0 <= k < |a.steps|
        ensures Confirms(rows, a.steps[k].id)
      {
        assert StepFor(a.steps, a.steps[k].id).Some?;
        assert a.steps[k].id in seen;
      }
    }
    if CoversPlan(a, rows) {
      forall id | id in steps.Keys
        ensures id in seen
      {
        var k :| 0 <= k < |a.steps| && a.steps[k].id == id;
        assert Confirms(rows, id);
      }
      assert seen == steps.Keys;
    }
  }

  lemma SeenInPlan(a: Artifact, rows: seq<Option<Row>>, seen: set<string>, attempt: int, steps: map<string, Step>)
    requires AllGood(a, rows) && SeenRows(rows, |rows|, seen, attempt) && IndexesSteps(steps, a.steps)
    ensures seen <= steps.Keys
  {
    assert rows[..|rows|] == rows;
    forall id | id in seen
      ensures id in steps.Keys
    {
      var i :| 0 <= i < |rows| && rows[i].value.id == id;
      assert Good(a, rows[i]);
    }
  }

  lemma {:induction false} FullSubset(x: set<string>, y: set<string>)
    requires x <= y && |x| == |y|
    ensures x == y
  {
    if x != {} {
      var e :| e in x;
      FullSubset(x - {e}, y - {e});
      assert x == (x - {e}) + {e} && y == (y - {e}) + {e};
    }
  }

  /** The row test on the indexed plan. */
  predicate Accepted(a: Artifact, steps: map<string, Step>, phases: map<string, Phase>, row: Row) {
    && row.id in steps && row.id in phases && MatchesStep(row, steps[row.id], phases[row.id])
    && MatchesExecution(row, a) && row.confirmed && row.attempt >= 1
  }

  lemma AcceptedIsGood(a: Artifact, steps: map<string, Step>, phases: map<string, Phase>, row: Row)
    requires IndexesSteps(steps, a.steps) && IndexesPhases(phases, a.phases)
    ensures Accepted(a, steps, phases, row) <==> Good(a, Some(row))
  {
    hide StepFor, PhaseFor, MatchesStep, MatchesExecution;
    var s, p := StepFor(a.steps, row.id), PhaseFor(a.phases, row.id);
  }

  method ReadCompletedAttempt(a: Artifact, h: History) returns (r: Answer)
    ensures r == Judge(a, h)
  {
    hide IndexesSteps, IndexesPhases, Good, Accepted, CoversPlan, SeenRows;
    if h.NoBindings? {
      return Ineligible;
    } else if h.NoConnection? {
      return Unavailable;
    }
    var steps, phases := HistoryBindings(a);
    var seen: set<string>, attempt: int := {}, 0;
    NothingSeen(h.rows);
    for i := 0 to |h.rows|
      invariant SeenRows(h.rows, i, seen, attempt)
      invariant forall k | 0 <= k < i :: h.rows[k].Some? && Good(a, h.rows[k])
      invariant forall j, k | 0 <= j < k < i :: Agree(h.rows[j], h.rows[k])
      invariant attempt == 0 <==> i == 0
    {
      if h.rows[i].None? {
        NoneIsBad(a);
        return Invalid;
      }
      var row := h.rows[i].value;
      AcceptedIsGood(a, steps, phases, row);
      if !Accepted(a, steps, phases, row) {
        return Invalid;
      }
      if row.id in seen || (attempt != 0 && row.attempt != attempt) {
        Disagrees(h.rows, i, seen, attempt);
        return Invalid;
      }
      SeenRowsNext(h.rows, i, seen, attempt);
      AgreesWithAll(h.rows, i, seen, attempt);
      GoodAttempt(a, h.rows[i]);
      seen, attempt := seen + {row.id}, row.attempt;
    }
    SeenAttempt(h.rows, seen, attempt);
    if !h.whole {
      return Unavailable;
    }
    CountingCovers(a, h.rows, seen, attempt, steps);
    if |seen| != |steps| {
      return Incomplete;
    }
    r := Attempt(attempt);
  }

  lemma NothingSeen(rows: seq<Option<Row>>)
    ensures SeenRows(rows, 0, {}, 0)
  {}

  lemma NoneIsBad(a: Artifact)
    ensures !Good(a, None)
  {}

  lemma GoodAttempt(a: Artifact, row: Option<Row>)
    requires Good(a, row)
    ensures row.value.attempt >= 1
  {}

  lemma SeenAttempt(rows: seq<Option<Row>>, seen: set<string>, attempt: int)
    requires SeenRows(rows, |rows|, seen, attempt)
    ensures if rows == [] then attempt == 0 else rows[0].Some? && rows[0].value.attempt == attempt
  {}

  lemma AgreesWithAll(rows: seq<Option<Row>>, n: nat, seen: set<string>, attempt: int)
    requires n < |rows| && SeenRows(rows, n, seen, attempt) && rows[n].Some? && rows[n].value.id !in seen
    requires n == 0 || rows[n].value.attempt == attempt
    ensures forall i | 0 <= i < n :: rows[i].Some? && Agree(rows[i], rows[n])
  {}

  lemma Disagrees(rows: seq<Option<Row>>, n: nat, seen: set<string>, attempt: int)
    requires n < |rows| && SeenRows(rows, n, seen, attempt) && rows[n].Some?
    requires rows[n].value.id in seen || (attempt != 0 && rows[n].value.attempt != attempt)
    ensures exists i :: 0 <= i < n && rows[i].Some? && !Agree(rows[i], rows[n])
  {
    if rows[n].value.id in seen {
      var i :| 0 <= i < n && rows[..n][i].Some? && rows[..n][i].value.id == rows[n].value.id;
      assert !Agree(rows[i], rows[n]);
    } else {
      assert !Agree(rows[0], rows[n]);
    }
  }

  // ---------- what the answer means, and that order does not matter ----------

  /** Every row is good and of attempt n, and every step of the plan has exactly one. */
  ghost predicate EveryStepOnce(a: Artifact, rows: seq<Option<Row>>, n: int) {
    && (forall i | 0 <= i < |rows| :: Good(a, rows[i]) && rows[i].value.attempt == n)
    && (forall k | 0 <= k < |a.steps| :: RowsFor(rows, a.steps[k].id) == 1)
  }

  lemma OnceWhenGood(a: Artifact, rows: seq<Option<Row>>)
    requires a.steps != [] && AllGood(a, rows) && CoversPlan(a, rows)
    ensures rows != [] && EveryStepOnce(a, rows, rows[0].value.attempt)
  {
    hide Good;
    assert Confirms(rows, a.steps[0].id);
    forall k | 0 <= k < |a.steps|
      ensures RowsFor(rows, a.steps[k].id) == 1
    {
      assert Confirms(rows, a.steps[k].id);
      var i :| 0 <= i < |rows| && rows[i].Some? && rows[i].value.id == a.steps[k].id;
      OneRow(a, rows, i);
    }
    forall i | 0 <= i < |rows|
      ensures rows[0].Some? && rows[i].Some? && rows[i].value.attempt == rows[0].value.attempt
    {
      GoodScans(a, rows[i]);
      GoodScans(a, rows[0]);
      assert 0 < i ==> Agree(rows[0], rows[i]);
    }
  }

  lemma GoodWhenOnce(a: Artifact, rows: seq<Option<Row>>, n: int)
    requires a.steps != [] && EveryStepOnce(a, rows, n)
    ensures AllGood(a, rows) && CoversPlan(a, rows) && rows != [] && rows[0].value.attempt == n >= 1
  {
    hide RowsFor;
    forall k | 0 <= k < |a.steps|
      ensures Confirms(rows, a.steps[k].id)
    {
      SomeRow(rows, a.steps[k].id);
    }
    assert Confirms(rows, a.steps[0].id);
    forall i, j | 0 <= i < j < |rows|
      ensures Agree(rows[i], rows[j])
    {
      StepOfRow(a, rows[i]);
      var k :| 0 <= k < |a.steps| && a.steps[k].id == rows[i].value.id;
      if rows[j].value.id == rows[i].value.id {
        TwoRows(rows, i, j);
      }
    }
    assert Good(a, rows[0]);
  }

  lemma StepOfRow(a: Artifact, row: Option<Row>)
    requires Good(a, row)
    ensures exists k :: 0 <= k < |a.steps| && a.steps[k].id == row.value.id
  {}

  /** One attempt is reported exactly for complete reads with one good row per step, all of that attempt. */
  lemma AttemptMeansEveryStepOnce(a: Artifact, rows: seq<Option<Row>>, whole: bool, n: int)
    requires a.steps != []
    ensures Judge(a, Rows(rows, whole)) == Attempt(n) <==> whole && EveryStepOnce(a, rows, n)
  {
    hide AllGood, CoversPlan, EveryStepOnce;
    if AllGood(a, rows) && CoversPlan(a, rows) {
      OnceWhenGood(a, rows);
    }
    if EveryStepOnce(a, rows, n) {
      GoodWhenOnce(a, rows, n);
    }
  }

  function RowsFor(rows: seq<Option<Row>>, id: string): nat {
    if rows == [] then 0
    else
      var last := rows[|rows| - 1];
      RowsFor(rows[..|rows| - 1], id) + if last.Some? && last.value.id == id then 1 else 0
  }

  lemma {:induction false} SomeRow(rows: seq<Option<Row>>, id: string)
    ensures RowsFor(rows, id) > 0 <==> Confirms(rows, id)
  {
    if rows != [] {
      var last := |rows| - 1;
      SomeRow(rows[..last], id);
      if Confirms(rows, id) {
        var i :| 0 <= i < |rows| && rows[i].Some? && rows[i].value.id == id;
        assert i < last ==> rows[..last][i] == rows[i];
      }
      if Confirms(rows[..last], id) {
        var i :| 0 <= i < last && rows[..last][i].Some? && rows[..last][i].value.id == id;
        assert rows[i].value.id == id;
      }
    }
  }

  lemma {:induction false} TwoRows(rows: seq<Option<Row>>, i: nat, j: nat)
    requires i < j < |rows| && rows[i].Some? && rows[j].Some? && rows[i].value.id == rows[j].value.id
    ensures RowsFor(rows, rows[i].value.id) >= 2
  {
    var last := |rows| - 1;
    if j < last {
      TwoRows(rows[..last], i, j);
    } else {
      assert rows[..last][i] == rows[i];
      SomeRow(rows[..last], rows[i].value.id);
    }
  }

  lemma {:induction false} OneRow(a: Artifact, rows: seq<Option<Row>>, i: nat)
    requires AllGood(a, rows) && i < |rows|
    ensures RowsFor(rows, rows[i].value.id) == 1
  {
    var last := |rows| - 1;
    var id := rows[i].value.id;
    if i < last {
      assert Agree(rows[i], rows[last]);
      OneRow(a, rows[..last], i);
    } else {
      forall k | 0 <= k < last
        ensures rows[k].value.id != id
      {
        assert Agree(rows[k], rows[last]);
      }
      SomeRow(rows[..last], id);
    }
  }

  /** The rows as the query could also have returned them. */
  ghost predicate Reordered(x: seq<Option<Row>>, y: seq<Option<Row>>) { multiset(x) == multiset(y) }

  lemma SameElements(x: seq<Option<Row>>, y: seq<Option<Row>>)
    requires Reordered(x, y)
    ensures |x| == |y|
    ensures forall r :: r in x <==> r in y
  {
    assert |multiset(x)| == |multiset(y)|;
    forall r
      ensures r in x <==> r in y
    {
      assert r in multiset(x) <==> r in multiset(y);
    }
  }

  lemma {:induction false} TwiceInSequence(x: seq<Option<Row>>, i: nat, j: nat)
    requires i < j < |x| && x[i] == x[j]
    ensures multiset(x)[x[i]] >= 2
  {
    assert x == x[..j] + x[j..];
    assert x[..j][i] == x[i];
    assert x[j..][0] == x[j];
  }

  lemma {:induction false} TwiceInMultiset(x: seq<Option<Row>>, r: Option<Row>)
    requires multiset(x)[r] >= 2
    ensures exists i, j :: 0 <= i < j < |x| && x[i] == x[j] == r
  {
    var last := |x| - 1;
    assert x == x[..last] + [x[last]];
    if x[last] == r {
      assert multiset(x[..last])[r] >= 1;
      assert r in x[..last];
      var i :| 0 <= i < last && x[i] == r;
      assert x[i] == x[last] == r;
    } else {
      TwiceInMultiset(x[..last], r);
      var i, j :| 0 <= i < j < last && x[..last][i] == x[..last][j] == r;
      assert x[i] == x[j] == r;
    }
  }

  lemma GoodAgain(a: Artifact, x: seq<Option<Row>>, y: seq<Option<Row>>)
    requires Reordered(x, y) && AllGood(a, x)
    ensures AllGood(a, y)
  {
    hide Good;
    SameElements(x, y);
    forall i | 0 <= i < |y|
      ensures Good(a, y[i])
    {
      assert y[i] in x;
    }
    forall i, j | 0 <= i < j < |y|
      ensures y[i].Some? && y[j].Some? && Agree(y[i], y[j])
    {
      GoodScans(a, y[i]);
      GoodScans(a, y[j]);
      assert y[i] in x && y[j] in x;
      if y[i] == y[j] {
        TwiceInSequence(y, i, j);
        TwiceInMultiset(x, y[i]);
        var k, l :| 0 <= k < l < |x| && x[k] == x[l] == y[i];
        assert Agree(x[k], x[l]);
      } else {
        var k, l :| 0 <= k < |x| && 0 <= l < |x| && x[k] == y[i] && x[l] == y[j];
        assert k != l;
        if k < l {
          assert Agree(x[k], x[l]);
        } else {
          assert Agree(x[l], x[k]);
        }
      }
    }
  }

  lemma GoodScans(a: Artifact, row: Option<Row>)
    requires Good(a, row)
    ensures row.Some?
  {}

  lemma CoversAgain(a: Artifact, x: seq<Option<Row>>, y: seq<Option<Row>>)
    requires Reordered(x, y) && CoversPlan(a, x)
    ensures CoversPlan(a, y)
  {
    SameElements(x, y);
    forall k | 0 <= k < |a.steps|
      ensures Confirms(y, a.steps[k].id)
    {
      assert Confirms(x, a.steps[k].id);
      var i :| 0 <= i < |x| && x[i].Some? && x[i].value.id == a.steps[k].id;
      assert x[i] in y;
    }
  }

  /** Outcome and attempt are the same for every order of the rows. */
  lemma OrderDoesNotMatter(a: Artifact, x: seq<Option<Row>>, y: seq<Option<Row>>, whole: bool)
    requires Reordered(x, y)
    ensures Judge(a, Rows(x, whole)) == Judge(a, Rows(y, whole))
  {
    hide Good, CoversPlan;
    if AllGood(a, x) {
      GoodAgain(a, x, y);
    } else if AllGood(a, y) {
      GoodAgain(a, y, x);
    }
    if CoversPlan(a, x) {
      CoversAgain(a, x, y);
    } else if CoversPlan(a, y) {
      CoversAgain(a, y, x);
    }
    SameElements(x, y);
    if AllGood(a, x) && x != [] {
      GoodScans(a, x[0]);
      GoodScans(a, y[0]);
      assert y[0] in x;
      var k :| 0 <= k < |x| && x[k] == y[0];
      if k > 0 {
        assert Agree(x[0], x[k]);
      }
    }
  }
}
