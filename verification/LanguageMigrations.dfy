/**
 Binding a migration test to a manifest: each version the test declares receives the
 manifest entries that lead from the previously declared version up to it.
 */
module LanguageMigrations {
  import opened Options
  import opened SuiteTypes

  /**
   A manifest entry. `version` is `None` when it does not parse, `statements` is `None`
   when the file does not split, `controlsTransaction` tells whether a statement begins
   or ends a transaction.
   */
  datatype Entry = Entry(
    version: Option<Version>,
    nonLinear: bool,
    file: string,
    forbidsTransaction: bool,
    statements: Option<seq<string>>,
    controlsTransaction: bool)

  /** `intact` is the verdict of re-deriving the manifest from every byte of the snapshot. */
  datatype Snapshot = Snapshot(intact: bool, entries: seq<Entry>, digest: string)

  predicate Linear(entries: seq<Entry>) {
    && (forall i | 0 <= i < |entries| :: entries[i].version.Some? && !entries[i].nonLinear)
    && forall i, j | 0 <= i < j < |entries| :: entries[i].version.value < entries[j].version.value
  }

  predicate Executable(e: Entry) { e.statements.Some? && (e.forbidsTransaction || !e.controlsTransaction) }

  function StepOf(e: Entry): Migration
    requires e.version.Some? && e.statements.Some?
  {
    Migration(e.version.value, e.file, !e.forbidsTransaction, e.statements.value)
  }

  predicate Prepared(entries: seq<Entry>, lo: nat, hi: nat)
    requires lo <= hi <= |entries|
  {
    forall k | lo <= k < hi :: entries[k].version.Some? && entries[k].statements.Some?
  }

  /** The manifest entries lo up to hi as migrations. */
  function Steps(entries: seq<Entry>, lo: nat, hi: nat): (out: seq<Migration>)
    requires lo <= hi <= |entries| && Prepared(entries, lo, hi)
    ensures |out| == hi - lo
    ensures forall j | 0 <= j < |out| :: out[j] == StepOf(entries[lo + j])
  {
    seq(hi - lo, j requires 0 <= j < hi - lo => StepOf(entries[lo + j]))
  }

  /** The index of every version among the first n, and of nothing else. */
  ghost predicate Indexes(positions: map<Version, nat>, entries: seq<Entry>, n: nat)
    requires n <= |entries|
  {
    && (forall v | v in positions :: positions[v] < n && entries[positions[v]].version == Some(v))
    && (forall i | 0 <= i < n && entries[i].version.Some? ::
          entries[i].version.value in positions && positions[entries[i].version.value] == i)
  }

  /** The positions of the versions, when the manifest is linear and its versions strictly increase. */
  method TestVersionPositions(entries: seq<Entry>) returns (positions: Option<map<Version, nat>>)
    ensures positions.Some? <==> Linear(entries)
    ensures positions.Some? ==> Indexes(positions.value, entries, |entries|)
  {
    var found: map<Version, nat> := map[];
    var previous: Option<Version> := None;
    for i := 0 to |entries|
      invariant forall k | 0 <= k < i :: entries[k].version.Some? && !entries[k].nonLinear
      invariant forall k, m | 0 <= k < m < i :: entries[k].version.value < entries[m].version.value
      invariant i == 0 ==> previous.None?
      invariant i > 0 ==> previous == entries[i - 1].version
      invariant Indexes(found, entries, i)
    {
      var entry := entries[i];
      if entry.version.None? || entry.nonLinear {
        return None;
      }
      if previous.Some? && previous.value >= entry.version.value {
        assert entries[i - 1].version.value >= entries[i].version.value;
        return None;
      }
      found := found[entry.version.value := i];
      previous := entry.version;
    }
    positions := Some(found);
  }

  method TestMigrationSteps(entries: seq<Entry>, start: nat, end: nat) returns (steps: Option<seq<Migration>>)
    requires start <= end <= |entries| && Linear(entries)
    ensures steps.Some? <==> forall i | start <= i < end :: Executable(entries[i])
    ensures steps.Some? ==> Prepared(entries, start, end) && steps.value == Steps(entries, start, end)
  {
    var result: seq<Migration> := [];
    for i := start to end
      invariant forall k | start <= k < i :: Executable(entries[k])
      invariant Prepared(entries, start, i) && result == Steps(entries, start, i)
    {
      var entry := entries[i];
      if entry.statements.None? {
        return None;
      }
      if !entry.forbidsTransaction && entry.controlsTransaction {
        return None;
      }
      result := result + [StepOf(entry)];
    }
    steps := Some(result);
  }

  predicate Marks(ops: seq<Operation>, i: int) { 0 <= i < |ops| && ops[i].kind.VersionMark? }

  /** Every declared version is in the manifest, they increase, and all entries they reach can be executed. */
  ghost predicate Bindable(ops: seq<Operation>, entries: seq<Entry>)
    requires Linear(entries)
  {
    && (forall i | Marks(ops, i) :: Placed(entries, ops[i].version))
    && (forall i, j | Marks(ops, i) && Marks(ops, j) && i < j :: ops[i].version < ops[j].version)
    && (forall i, k | Marks(ops, i) && 0 <= k < |entries| && entries[k].version.value <= ops[i].version ::
          Executable(entries[k]))
  }

  ghost predicate Placed(entries: seq<Entry>, v: Version) {
    exists k :: 0 <= k < |entries| && entries[k].version == Some(v)
  }

  /** The migrations the first n operations carry between them, in order. */
  function Carried(ops: seq<Operation>, bound: map<nat, seq<Migration>>, n: nat): seq<Migration>
    requires n <= |ops|
    requires forall i | Marks(ops, i) && i < n :: i in bound
  {
    if n == 0 then []
    else Carried(ops, bound, n - 1) + if Marks(ops, n - 1) then bound[n - 1] else []
  }

  lemma {:induction false} CarriedSame(ops: seq<Operation>, a: map<nat, seq<Migration>>, b: map<nat, seq<Migration>>, n: nat)
    requires n <= |ops|
    requires forall i | Marks(ops, i) && i < n :: i in a && i in b && a[i] == b[i]
    ensures Carried(ops, a, n) == Carried(ops, b, n)
  {
    if n > 0 {
      CarriedSame(ops, a, b, n - 1);
    }
  }

  /** How many manifest entries the first n operations reach. */
  function Reached(ops: seq<Operation>, entries: seq<Entry>, n: nat): (count: nat)
    requires n <= |ops|
    ensures count <= |entries|
  {
    CountUpTo(entries, LastVersion(ops, n))
  }

  function LastVersion(ops: seq<Operation>, n: nat): Option<Version>
    requires n <= |ops|
  {
    if n == 0 then None
    else if Marks(ops, n - 1) then Some(ops[n - 1].version)
    else LastVersion(ops, n - 1)
  }

  lemma {:induction false} LastVersionIsDeclared(ops: seq<Operation>, n: nat)
    requires n <= |ops| && LastVersion(ops, n).Some?
    ensures exists k :: Marks(ops, k) && k < n && ops[k].version == LastVersion(ops, n).value
  {
    if Marks(ops, n - 1) {
      assert ops[n - 1].version == LastVersion(ops, n).value;
    } else {
      LastVersionIsDeclared(ops, n - 1);
    }
  }

  function CountUpTo(entries: seq<Entry>, v: Option<Version>): (count: nat)
    ensures count <= |entries|
  {
    if entries == [] || v.None? then 0
    else
      var last := entries[|entries| - 1].version;
      CountUpTo(entries[..|entries| - 1], v) + (if last.Some? && last.value <= v.value then 1 else 0)
  }

  lemma {:induction false} CountAtPosition(entries: seq<Entry>, k: nat)
    requires Linear(entries) && k < |entries|
    ensures CountUpTo(entries, entries[k].version) == k + 1
  {
    var last := |entries| - 1;
    if k < last {
      CountAtPosition(entries[..last], k);
    } else {
      CountAll(entries[..last], entries[k].version.value);
    }
  }

  lemma {:induction false} CountAll(entries: seq<Entry>, v: Version)
    requires forall i | 0 <= i < |entries| :: entries[i].version.Some? && entries[i].version.value <= v
    ensures CountUpTo(entries, Some(v)) == |entries|
  {
    if entries != [] {
      CountAll(entries[..|entries| - 1], v);
    }
  }

  /** What has been bound after i operations, when the last declared version sits at `previous`. */
  ghost predicate BoundSoFar(
    ops: seq<Operation>, entries: seq<Entry>, bound: map<nat, seq<Migration>>, previous: int, i: nat)
    requires i <= |ops| && Linear(entries)
  {
    && -1 <= previous < |entries|
    && (forall k | 0 <= k <= previous :: Executable(entries[k]))
    && (forall k: nat :: k in bound <==> Marks(ops, k) && k < i)
    && Declared(ops, entries, previous, i)
    && CarriesAll(ops, entries, bound, previous, i)
    && EndsRight(ops, bound, i)
  }

  ghost predicate Declared(ops: seq<Operation>, entries: seq<Entry>, previous: int, i: nat)
    requires i <= |ops| && Linear(entries) && -1 <= previous < |entries|
  {
    && LastVersion(ops, i) == (if previous == -1 then None else entries[previous].version)
    && (forall k | Marks(ops, k) && k < i ::
          Placed(entries, ops[k].version) && previous >= 0 && ops[k].version <= entries[previous].version.value)
    && (forall k, m | Marks(ops, k) && Marks(ops, m) && k < m < i :: ops[k].version < ops[m].version)
  }

  ghost predicate CarriesAll(
    ops: seq<Operation>, entries: seq<Entry>, bound: map<nat, seq<Migration>>, previous: int, i: nat)
    requires i <= |ops| && -1 <= previous < |entries|
    requires forall k | Marks(ops, k) && k < i :: k in bound
  {
    Prepared(entries, 0, previous + 1) && Carried(ops, bound, i) == Steps(entries, 0, previous + 1)
  }

  ghost predicate EndsRight(ops: seq<Operation>, bound: map<nat, seq<Migration>>, i: nat)
    requires forall k | Marks(ops, k) && k < i :: k in bound
  {
    forall k | Marks(ops, k) && k < i :: bound[k] != [] && bound[k][|bound[k]| - 1].version == ops[k].version
  }

  lemma DeclaredNext(ops: seq<Operation>, entries: seq<Entry>, previous: int, i: nat, position: nat)
    requires i < |ops| && Linear(entries) && Marks(ops, i) && -1 <= previous < position < |entries|
    requires Declared(ops, entries, previous, i) && entries[position].version == Some(ops[i].version)
    ensures Declared(ops, entries, position, i + 1)
  {
    assert previous >= 0 ==> entries[previous].version.value < entries[position].version.value;
    assert Placed(entries, ops[i].version);
  }

  lemma CarriesNext(
    ops: seq<Operation>, entries: seq<Entry>, bound: map<nat, seq<Migration>>, previous: int, i: nat, position: nat)
    requires i < |ops| && Marks(ops, i) && -1 <= previous < position < |entries|
    requires forall k | Marks(ops, k) && k < i :: k in bound
    requires CarriesAll(ops, entries, bound, previous, i) && Prepared(entries, previous + 1, position + 1)
    ensures CarriesAll(ops, entries, bound[i := Steps(entries, previous + 1, position + 1)], position, i + 1)
  {
    var steps := Steps(entries, previous + 1, position + 1);
    CarriedSame(ops, bound, bound[i := steps], i);
    assert Prepared(entries, 0, position + 1);
    assert Steps(entries, 0, previous + 1) + steps == Steps(entries, 0, position + 1);
  }

  lemma BindNext(
    ops: seq<Operation>, entries: seq<Entry>, bound: map<nat, seq<Migration>>, previous: int, i: nat, position: nat)
    requires i < |ops| && Linear(entries) && Marks(ops, i) && BoundSoFar(ops, entries, bound, previous, i)
    requires previous < position < |entries| && entries[position].version == Some(ops[i].version)
    requires forall k | previous < k <= position :: Executable(entries[k])
    ensures Prepared(entries, previous + 1, position + 1)
    ensures BoundSoFar(ops, entries, bound[i := Steps(entries, previous + 1, position + 1)], position, i + 1)
  {
    hide Declared, CarriesAll;
    assert Prepared(entries, previous + 1, position + 1);
    DeclaredNext(ops, entries, previous, i, position);
    CarriesNext(ops, entries, bound, previous, i, position);
    var steps := Steps(entries, previous + 1, position + 1);
    assert steps[|steps| - 1] == StepOf(entries[position]);
  }

  lemma NothingBound(ops: seq<Operation>, entries: seq<Entry>)
    requires Linear(entries)
    ensures BoundSoFar(ops, entries, map[], -1, 0)
  {
  }

  lemma BindSkips(
    ops: seq<Operation>, entries: seq<Entry>, bound: map<nat, seq<Migration>>, previous: int, i: nat)
    requires i < |ops| && Linear(entries) && !Marks(ops, i) && BoundSoFar(ops, entries, bound, previous, i)
    ensures BoundSoFar(ops, entries, bound, previous, i + 1)
  {
    assert Carried(ops, bound, i + 1) == Carried(ops, bound, i);
  }

  lemma BindFails(
    ops: seq<Operation>, entries: seq<Entry>, positions: map<Version, nat>, bound: map<nat, seq<Migration>>,
    previous: int, i: nat)
    requires i < |ops| && Linear(entries) && Marks(ops, i) && BoundSoFar(ops, entries, bound, previous, i)
    requires Indexes(positions, entries, |entries|)
    requires ops[i].version !in positions
             || positions[ops[i].version] <= previous
             || exists k :: previous < k <= positions[ops[i].version] && !Executable(entries[k])
    ensures !Bindable(ops, entries)
  {
    if ops[i].version !in positions {
      assert !Placed(entries, ops[i].version);
    } else if positions[ops[i].version] <= previous {
      LastVersionIsDeclared(ops, i);
      var k :| Marks(ops, k) && k < i && ops[k].version == LastVersion(ops, i).value;
      var p := positions[ops[i].version];
      assert p < previous ==> entries[p].version.value < entries[previous].version.value;
    } else {
      var k :| previous < k <= positions[ops[i].version] && !Executable(entries[k]);
      var p := positions[ops[i].version];
      assert k < p ==> entries[k].version.value < entries[p].version.value;
    }
  }

  lemma AllBound(ops: seq<Operation>, entries: seq<Entry>, bound: map<nat, seq<Migration>>, previous: int)
    requires Linear(entries) && BoundSoFar(ops, entries, bound, previous, |ops|)
    ensures Bindable(ops, entries)
    ensures forall i: nat :: i in bound <==> Marks(ops, i)
    ensures var n := Reached(ops, entries, |ops|);
            && (forall k | 0 <= k < n :: Executable(entries[k]))
            && Prepared(entries, 0, n)
            && Carried(ops, bound, |ops|) == Steps(entries, 0, n)
    ensures forall i | Marks(ops, i) ::
              var steps := bound[i]; steps != [] && steps[|steps| - 1].version == ops[i].version
  {
    if previous >= 0 {
      CountAtPosition(entries, previous);
    }
    forall i, k | Marks(ops, i) && 0 <= k < |entries| && entries[k].version.value <= ops[i].version
      ensures Executable(entries[k])
    {
      assert k <= previous;
    }
  }

  /**
   Binding succeeds exactly for intact linear snapshots whose manifest holds the
   declared versions in increasing order with executable entries up to the last one.
   It then carries the manifest's first entries up to the last declared version, each
   once and in order, and each declared version ends with its own entry.
   */
  method BindMigrations(c: TestCase, snapshot: Snapshot) returns (bound: Option<TestCase>)
    ensures bound.Some? <==>
      c.kind.MigrationCase? && snapshot.intact && Linear(snapshot.entries) && Bindable(c.operations, snapshot.entries)
    ensures bound.Some? ==>
      && bound.value == c.(migrationDigest := snapshot.digest, migrations := bound.value.migrations)
      && (forall i: nat :: i in bound.value.migrations <==> Marks(c.operations, i))
      && var n := Reached(c.operations, snapshot.entries, |c.operations|);
         && (forall k | 0 <= k < n :: Executable(snapshot.entries[k]))
         && Prepared(snapshot.entries, 0, n)
         && Carried(c.operations, bound.value.migrations, |c.operations|) == Steps(snapshot.entries, 0, n)
    ensures bound.Some? ==>
      forall i | Marks(c.operations, i) ::
        var steps := bound.value.migrations[i]; steps != [] && steps[|steps| - 1].version == c.operations[i].version
  {
    hide Declared, Bindable, Executable, Steps, Prepared, Carried, Reached, LastVersion, CarriesAll, EndsRight, Placed;
    if !c.kind.MigrationCase? || !snapshot.intact {
      return None;
    }
    var entries := snapshot.entries;
    var positions := TestVersionPositions(entries);
    if positions.None? {
      return None;
    }
    var ops := c.operations;
    var migrations: map<nat, seq<Migration>> := map[];
    var previous: int := -1;
    NothingBound(ops, entries);
    for i := 0 to |ops|
      invariant BoundSoFar(ops, entries, migrations, previous, i)
    {
      var op := ops[i];
      if !op.kind.VersionMark? {
        BindSkips(ops, entries, migrations, previous, i);
        continue;
      }
      if op.version !in positions.value || positions.value[op.version] <= previous {
        BindFails(ops, entries, positions.value, migrations, previous, i);
        return None;
      }
      var position := positions.value[op.version];
      var steps := TestMigrationSteps(entries, previous + 1, position + 1);
      if steps.None? {
        BindFails(ops, entries, positions.value, migrations, previous, i);
        return None;
      }
      BindNext(ops, entries, migrations, previous, i, position);
      migrations := migrations[i := steps.value];
      previous := position;
    }
    AllBound(ops, entries, migrations, previous);
    bound := Some(c.(migrationDigest := snapshot.digest, migrations := migrations));
  }
}
