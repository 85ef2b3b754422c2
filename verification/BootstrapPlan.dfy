/**
 Lifting a schema plan into a whole-database bootstrap plan: database preparation first,
 then every schema step, grouped into checkpointed phases.
 */
module BootstrapPlan {
  import opened Options
  import opened StringOrder

  datatype Kind =
    | Database | Role | Namespace | Extension | Enum | Domain | Composite | Function | Procedure
    | PrimaryKey | UniqueConstraint | CheckConstraint | ForeignKey | Index | Trigger | Policy
    | Grant | Membership | DefaultPrivilege | OtherKind(text: string)

  datatype Stage =
    | DatabaseTarget | Roles | Namespaces | Extensions | Types | Routines | Storage | Constraints
    | Indexes | Behavior | AccessHandoff

  datatype Scope = Server | InDatabase

  datatype Transaction = RequiredTx | ProhibitedTx | OtherTx(text: string)

  datatype Change = Change(id: string, before: Option<Kind>, after: Option<Kind>)

  datatype SchemaStep = SchemaStep(id: string, changeId: string, transaction: Transaction, dependsOn: seq<string>)

  /** `sound` is the verdict of the schema plan's own validation on everything not listed in `Coherent`. */
  datatype SchemaPlan = SchemaPlan(changes: seq<Change>, steps: seq<SchemaStep>, sound: bool)

  datatype Mode = Managed | External | OtherMode(text: string)

  datatype Target = Target(
    mode: Mode, host: string, port: nat, tlsMode: string, maintenance: string, name: string, owner: string,
    encoding: string, localeProvider: string, collation: string, characterType: string, icuLocale: string,
    template: string, tablespace: string, connectionLimit: int, allowConnections: bool)

  /** What an identifier is derived from. */
  datatype Source =
    | PreparationOf(name: string, mode: Mode)
    | StepOf(schemaStep: string)
    | PhaseOf(index: nat, stage: Stage, scope: Scope, transaction: Transaction, stepIds: seq<string>)
    | CheckpointOf(phase: string)

  /** Identifiers are digests: never empty, and different for different sources. */
  ghost predicate Stable(ident: Source -> string) {
    (forall s :: ident(s) != "") && forall s, t | ident(s) == ident(t) :: s == t
  }

  datatype Action = PrepareDatabase | ExecuteSchema

  datatype Step = Step(
    id: string, action: Action, stage: Stage, scope: Scope, transaction: Transaction, schemaStep: string,
    changeId: string, dependsOn: seq<string>)

  datatype Phase = Phase(
    id: string, checkpoint: string, stage: Stage, scope: Scope, transaction: Transaction, stepIds: seq<string>)

  /** A managed resource that must exist already, as declared. */
  datatype Precondition = Precondition(id: string, resource: string)

  datatype Digest =
    | NoDigest
    | DigestOf(version: nat, target: Target, schemaPlan: SchemaPlan, preconditions: seq<Precondition>,
               steps: seq<Step>, phases: seq<Phase>)
    | OtherDigest(text: string)

  datatype Plan = Plan(
    version: nat, target: Target, schemaPlan: SchemaPlan, preconditions: seq<Precondition>, steps: seq<Step>,
    phases: seq<Phase>, digest: Digest)

  const PLAN_VERSION := 1

  // ---------- targets and schema plans ----------

  function Normalize(t: Target): (n: Target)
    ensures n.mode == t.mode && n.name == t.name && n.owner == t.owner && n.host == t.host
  {
    t.(port := if t.port == 0 then 5432 else t.port,
       tlsMode := if t.tlsMode == "" then "require" else t.tlsMode,
       maintenance := if t.maintenance == "" then "postgres" else t.maintenance,
       encoding := if t.encoding == "" then "UTF8" else t.encoding,
       template := if t.template == "" then "template0" else t.template,
       tablespace := if t.tablespace == "" then "pg_default" else t.tablespace)
  }

  lemma NormalizeTwice(t: Target)
    ensures Normalize(Normalize(t)) == Normalize(t)
  {
    var n := Normalize(t);
    assert n.tlsMode != "" && n.maintenance != "" && n.encoding != "" && n.template != "" && n.tablespace != "" by {
      assert |"require"| > 0 && |"postgres"| > 0 && |"UTF8"| > 0 && |"template0"| > 0 && |"pg_default"| > 0;
    }
  }

  predicate ValidTarget(t: Target) {
    && !t.mode.OtherMode? && !Blank(t.host) && !Blank(t.maintenance) && !Blank(t.name) && !Blank(t.owner)
    && (forall i | 0 <= i < |t.host| :: t.host[i] != '\r' && t.host[i] != '\n' && t.host[i] != '\0')
    && (t.icuLocale != "" ==> t.localeProvider == "icu")
    && (t.localeProvider == "" || t.localeProvider in {"libc", "icu", "builtin"})
    && (t.tlsMode == "" || t.tlsMode in {"disable", "require", "verify-ca", "verify-full"})
    && t.connectionLimit >= -1
  }

  predicate HasStep(sp: SchemaPlan, id: string) { exists i :: 0 <= i < |sp.steps| && sp.steps[i].id == id }

  /** Named, distinct steps whose dependencies are steps of the plan. */
  predicate Coherent(sp: SchemaPlan) {
    && sp.sound
    && (forall i | 0 <= i < |sp.steps| :: sp.steps[i].id != "")
    && (forall i, j | 0 <= i < j < |sp.steps| :: sp.steps[i].id != sp.steps[j].id)
    && forall i, k | 0 <= i < |sp.steps| && 0 <= k < |sp.steps[i].dependsOn| :: HasStep(sp, sp.steps[i].dependsOn[k])
  }

  // ---------- kinds ----------

  function KindOf(changes: seq<Change>, id: string): Kind {
    if changes == [] then OtherKind("")
    else
      var last := changes[|changes| - 1];
      if last.id != id then KindOf(changes[..|changes| - 1], id)
      else if last.after.Some? then last.after.value
      else if last.before.Some? then last.before.value
      else OtherKind("")
  }

  function StageForKind(k: Kind): Stage {
    match k
    case Database => DatabaseTarget
    case Role => Roles
    case Namespace => Namespaces
    case Extension => Extensions
    case Enum | Domain | Composite => Types
    case Function | Procedure => Routines
    case PrimaryKey | UniqueConstraint | CheckConstraint | ForeignKey => Constraints
    case Index => Indexes
    case Trigger | Policy => Behavior
    case Grant | Membership | DefaultPrivilege => AccessHandoff
    case OtherKind(_) => Storage
  }

  function ScopeForKind(k: Kind): Scope { if k.Database? || k.Role? || k.Membership? then Server else InDatabase }

  // ---------- dependency lists ----------

  function Nonempty(values: seq<string>): set<string> { set v | v in values && v != "" }

  /** The first value stays first; the others follow once each, sorted. */
  ghost function FirstThenSorted(values: seq<string>): seq<string>
    requires values != [] && values[0] != ""
  {
    [values[0]] + Sorted(Nonempty(values) - {values[0]})
  }

  method UniqueSorted(values: seq<string>) returns (out: seq<string>)
    requires values != [] && values[0] != ""
    ensures out == FirstThenSorted(values)
  {
    var seen: set<string> := {};
    out := [];
    for i := 0 to |values|
      invariant seen == Members(out) == Nonempty(values[..i]) && NoRepeats(out)
      invariant if i == 0 then out == [] else out != [] && out[0] == values[0]
    {
      NonemptyNext(values, i);
      if values[i] != "" && values[i] !in seen {
        MembersAppend(out, values[i]);
        seen := seen + {values[i]};
        out := out + [values[i]];
      }
    }
    assert values[..|values|] == values;
    var first, rest := out[0], out[1..];
    RestMembers(out);
    rest := InsertionSort(rest);
    SortedIsUnique(rest, Sorted(Nonempty(values) - {first}));
    out := [first] + rest;
  }

  lemma NonemptyNext(values: seq<string>, i: nat)
    requires i < |values|
    ensures Nonempty(values[..i + 1]) == Nonempty(values[..i]) + if values[i] == "" then {} else {values[i]}
  {
    assert values[..i + 1] == values[..i] + [values[i]];
  }

  lemma MembersAppend(s: seq<string>, x: string)
    requires NoRepeats(s) && x !in Members(s)
    ensures Members(s + [x]) == Members(s) + {x} && NoRepeats(s + [x])
  {}

  lemma RestMembers(s: seq<string>)
    requires s != [] && NoRepeats(s)
    ensures Members(s[1..]) == Members(s) - {s[0]} && NoRepeats(s[1..])
  {
    assert s == [s[0]] + s[1..];
  }

  function Swapped(s: seq<string>, j: nat): seq<string>
    requires 0 < j < |s|
  {
    s[j := s[j - 1]][j - 1 := s[j]]
  }

  lemma SwapKeeps(s: seq<string>, j: nat)
    requires 0 < j < |s| && NoRepeats(s)
    ensures Members(Swapped(s, j)) == Members(s) && NoRepeats(Swapped(s, j))
  {
    var t := Swapped(s, j);
    forall x | x in s
      ensures x in t
    {
      var i :| 0 <= i < |s| && s[i] == x;
      assert t[if i == j then j - 1 else if i == j - 1 then j else i] == x;
    }
  }

  /** The first i + 1 values are in order except that the one at j may belong further left. */
  ghost predicate Sinking(s: seq<string>, i: nat, j: nat)
    requires j <= i < |s|
  {
    && (forall a, b | 0 <= a < b <= i && a != j && b != j :: Less(s[a], s[b]))
    && (forall b | j < b <= i :: Less(s[j], s[b]))
  }

  lemma SinkOn(s: seq<string>, i: nat, j: nat)
    requires 0 < j <= i < |s| && Sinking(s, i, j) && Less(s[j], s[j - 1])
    ensures Sinking(Swapped(s, j), i, j - 1)
  {}

  lemma Sunk(s: seq<string>, i: nat, j: nat)
    requires j <= i < |s| && Sinking(s, i, j) && NoRepeats(s) && (j > 0 ==> !Less(s[j], s[j - 1]))
    ensures forall a, b | 0 <= a < b <= i :: Less(s[a], s[b])
  {
    forall a, b | 0 <= a < b <= i
      ensures Less(s[a], s[b])
    {
      if b == j {
        LessTotal(s[j - 1], s[j]);
        if a < j - 1 {
          LessTransitive(s[a], s[j - 1], s[j]);
        }
      }
    }
  }

  method InsertionSort(values: seq<string>) returns (s: seq<string>)
    requires NoRepeats(values)
    ensures Increasing(s) && Members(s) == Members(values)
  {
    s := values;
    var i := 1;
    while i < |s|
      invariant 1 <= i && |s| == |values| && NoRepeats(s) && Members(s) == Members(values)
      invariant forall a, b | 0 <= a < b < i && b < |s| :: Less(s[a], s[b])
    {
      var j := i;
      while j > 0 && Less(s[j], s[j - 1])
        invariant 0 <= j <= i < |s| == |values| && NoRepeats(s) && Members(s) == Members(values) && Sinking(s, i, j)
      {
        SwapKeeps(s, j);
        SinkOn(s, i, j);
        s := Swapped(s, j);
        j := j - 1;
      }
      Sunk(s, i, j);
      i := i + 1;
    }
  }

  // ---------- the composed steps ----------

  function DependencyIds(ident: Source -> string, sp: SchemaPlan, deps: seq<string>, prepare: string): (out: seq<string>)
    ensures |out| == 1 + |deps| && out[0] == prepare
    ensures forall k | 0 <= k < |deps| :: out[k + 1] == if HasStep(sp, deps[k]) then ident(StepOf(deps[k])) else ""
  {
    [prepare] + seq(|deps|, k requires 0 <= k < |deps| => if HasStep(sp, deps[k]) then ident(StepOf(deps[k])) else "")
  }

  function Preparation(ident: Source -> string, t: Target): Step {
    Step(ident(PreparationOf(t.name, t.mode)), PrepareDatabase, DatabaseTarget, Server, ProhibitedTx, "", "", [])
  }

  /** The step made of schema step i. */
  ghost function Lifted(ident: Source -> string, t: Target, sp: SchemaPlan, i: nat): Step
    requires Stable(ident) && i < |sp.steps|
  {
    var s, kind := sp.steps[i], KindOf(sp.changes, sp.steps[i].changeId);
    var prepare := ident(PreparationOf(t.name, t.mode));
    Step(ident(StepOf(s.id)), ExecuteSchema, StageForKind(kind), ScopeForKind(kind), s.transaction, s.id, s.changeId,
         FirstThenSorted(DependencyIds(ident, sp, s.dependsOn, prepare)))
  }

  ghost function StepsFor(ident: Source -> string, t: Target, sp: SchemaPlan, n: nat): (out: seq<Step>)
    requires Stable(ident) && n <= |sp.steps|
    ensures |out| == n + 1 && out[0] == Preparation(ident, t)
    ensures forall i | 0 <= i < n :: out[i + 1] == Lifted(ident, t, sp, i)
  {
    if n == 0 then [Preparation(ident, t)] else StepsFor(ident, t, sp, n - 1) + [Lifted(ident, t, sp, n - 1)]
  }

  // ---------- the phases ----------

  predicate SamePhase(p: Phase, s: Step) { p.stage == s.stage && p.scope == s.scope && p.transaction == s.transaction }

  /** The first n steps in phases: a step joins the last phase or starts a new one. */
  function Grouped(steps: seq<Step>, n: nat): (phases: seq<Phase>)
    requires n <= |steps|
    ensures phases == [] <==> n == 0
  {
    if n == 0 then []
    else
      var before, s := Grouped(steps, n - 1), steps[n - 1];
      if before == [] || !SamePhase(before[|before| - 1], s)
      then before + [Phase("", "", s.stage, s.scope, s.transaction, [s.id])]
      else
        var last := before[|before| - 1];
        before[|before| - 1 := last.(stepIds := last.stepIds + [s.id])]
  }

  function Named(ident: Source -> string, p: Phase, index: nat): Phase {
    var id := ident(PhaseOf(index, p.stage, p.scope, p.transaction, p.stepIds));
    p.(id := id, checkpoint := ident(CheckpointOf(id)))
  }

  function PhasesFor(ident: Source -> string, steps: seq<Step>): (phases: seq<Phase>)
    ensures |phases| == |Grouped(steps, |steps|)|
    ensures forall k | 0 <= k < |phases| :: phases[k] == Named(ident, Grouped(steps, |steps|)[k], k)
  {
    var grouped := Grouped(steps, |steps|);
    seq(|grouped|, k requires 0 <= k < |grouped| => Named(ident, grouped[k], k))
  }

  /** The steps of some phases, one phase after the other. */
  function Listed(phases: seq<Phase>): seq<string> {
    if phases == [] then [] else Listed(phases[..|phases| - 1]) + phases[|phases| - 1].stepIds
  }

  function Ids(steps: seq<Step>): (ids: seq<string>)
    ensures |ids| == |steps| && forall i | 0 <= i < |ids| :: ids[i] == steps[i].id
  {
    seq(|steps|, i requires 0 <= i < |steps| => steps[i].id)
  }

  /** The phase lists the steps from `start` on, all of its own stage, scope and mode. */
  ghost predicate Fits(steps: seq<Step>, p: Phase, start: nat) {
    && p.stepIds != [] && start + |p.stepIds| <= |steps|
    && forall i | 0 <= i < |p.stepIds| :: FitsAt(steps, p, start, i)
  }

  predicate FitsAt(steps: seq<Step>, p: Phase, start: nat, i: nat)
    requires start + i < |steps| && i < |p.stepIds|
  {
    p.stepIds[i] == steps[start + i].id && SamePhase(p, steps[start + i])
  }

  /** Phase k covers the steps from where the earlier phases end. */
  ghost predicate Covers(steps: seq<Step>, phases: seq<Phase>, k: nat)
    requires k < |phases|
  {
    Fits(steps, phases[k], |Listed(phases[..k])|)
  }

  /** Neighbouring phases could not be one. */
  predicate Differ(p: Phase, q: Phase) { p.stage != q.stage || p.scope != q.scope || p.transaction != q.transaction }

  /** Phases are the maximal runs of steps of one stage, scope and transaction mode. */
  ghost predicate MaximalRuns(steps: seq<Step>, phases: seq<Phase>) {
    && (forall k | 0 <= k < |phases| :: Covers(steps, phases, k))
    && (forall k | 0 <= k < |phases| - 1 :: Differ(phases[k], phases[k + 1]))
  }

  lemma ListedAppend(phases: seq<Phase>, p: Phase)
    ensures Listed(phases + [p]) == Listed(phases) + p.stepIds
  {
    assert (phases + [p])[..|phases|] == phases;
  }

  lemma ListedLast(phases: seq<Phase>, p: Phase)
    requires phases != []
    ensures Listed(phases[|phases| - 1 := p]) == Listed(phases[..|phases| - 1]) + p.stepIds
  {
    var last := |phases| - 1;
    assert phases[last := p] == phases[..last] + [p];
    ListedAppend(phases[..last], p);
  }

  /** Grouping keeps every step once and in order. */
  lemma {:induction false} GroupedListsSteps(steps: seq<Step>, n: nat)
    requires n <= |steps|
    ensures Listed(Grouped(steps, n)) == Ids(steps)[..n]
  {
    if n > 0 {
      GroupedListsSteps(steps, n - 1);
      var before, s := Grouped(steps, n - 1), steps[n - 1];
      assert Ids(steps)[..n] == Ids(steps)[..n - 1] + [s.id];
      if before == [] || !SamePhase(before[|before| - 1], s) {
        ListedAppend(before, Phase("", "", s.stage, s.scope, s.transaction, [s.id]));
      } else {
        var last := before[|before| - 1];
        ListedLast(before, last.(stepIds := last.stepIds + [s.id]));
        assert Listed(before) == Listed(before[..|before| - 1]) + last.stepIds;
      }
    }
  }

  lemma CoversKept(steps: seq<Step>, phases: seq<Phase>, more: seq<Phase>, k: nat)
    requires k < |phases| && k < |more| && phases[..k] == more[..k] && phases[k] == more[k] && Covers(steps, phases, k)
    ensures Covers(steps, more, k)
  {
    hide Fits;
  }

  lemma {:induction false} GroupedIsMaximal(steps: seq<Step>, n: nat)
    requires n <= |steps|
    ensures MaximalRuns(steps, Grouped(steps, n))
  {
    hide Covers, Listed;
    if n > 0 {
      GroupedIsMaximal(steps, n - 1);
      GroupedListsSteps(steps, n - 1);
      var before, after, s := Grouped(steps, n - 1), Grouped(steps, n), steps[n - 1];
      var last := |after| - 1;
      forall k | 0 <= k < last
        ensures Covers(steps, after, k)
      {
        assert after[..k] == before[..k];
        CoversKept(steps, before, after, k);
      }
      LastPhaseCovers(steps, n);
      forall k | 0 <= k < |after| - 1
        ensures Differ(after[k], after[k + 1])
      {
        assert k < |before| - 1 ==> Differ(before[k], before[k + 1]);
      }
    }
  }

  lemma FitsNew(steps: seq<Step>, start: nat)
    requires start < |steps|
    ensures var s := steps[start]; Fits(steps, Phase("", "", s.stage, s.scope, s.transaction, [s.id]), start)
  {
    var s := steps[start];
    assert FitsAt(steps, Phase("", "", s.stage, s.scope, s.transaction, [s.id]), start, 0);
  }

  lemma FitsMore(steps: seq<Step>, p: Phase, q: Phase, start: nat)
    requires Fits(steps, p, start) && start + |p.stepIds| < |steps| && SamePhase(p, steps[start + |p.stepIds|])
    requires q == p.(stepIds := p.stepIds + [steps[start + |p.stepIds|].id])
    ensures Fits(steps, q, start)
  {
    forall i | 0 <= i < |q.stepIds|
      ensures FitsAt(steps, q, start, i)
    {
      if i < |p.stepIds| {
        assert FitsAt(steps, p, start, i);
      }
    }
  }

  lemma LastPhaseCovers(steps: seq<Step>, n: nat)
    requires 0 < n <= |steps| && MaximalRuns(steps, Grouped(steps, n - 1))
    requires Listed(Grouped(steps, n - 1)) == Ids(steps)[..n - 1]
    ensures Covers(steps, Grouped(steps, n), |Grouped(steps, n)| - 1)
  {
    hide Fits, Listed, Grouped, Ids;
    GroupedNext(steps, n - 1);
    var before, after, s := Grouped(steps, n - 1), Grouped(steps, n), steps[n - 1];
    if before == [] || !SamePhase(before[|before| - 1], s) {
      assert after[..|after| - 1] == before;
      FitsNew(steps, n - 1);
    } else {
      var m := |before| - 1;
      assert after[..m] == before[..m];
      assert Covers(steps, before, m);
      assert before == before[..m] + [before[m]];
      ListedAppend(before[..m], before[m]);
      FitsMore(steps, before[m], after[m], |Listed(before[..m])|);
    }
  }

  lemma {:induction false} NamingKeepsListing(ident: Source -> string, a: seq<Phase>, b: seq<Phase>)
    requires |a| == |b| && forall k | 0 <= k < |a| :: b[k] == Named(ident, a[k], k)
    ensures Listed(a) == Listed(b)
  {
    if a != [] {
      NamingKeepsListing(ident, a[..|a| - 1], b[..|b| - 1]);
    }
  }

  lemma NamingKeepsCovering(ident: Source -> string, steps: seq<Step>, a: seq<Phase>, b: seq<Phase>, k: nat)
    requires |a| == |b| && (forall k | 0 <= k < |a| :: b[k] == Named(ident, a[k], k)) && k < |a| && Covers(steps, a, k)
    ensures Covers(steps, b, k)
  {
    hide Listed;
    NamingKeepsListing(ident, a[..k], b[..k]);
    FitsAnyName(steps, a[k], b[k], |Listed(a[..k])|);
  }

  lemma FitsAnyName(steps: seq<Step>, p: Phase, q: Phase, start: nat)
    requires Fits(steps, p, start) && q == p.(id := q.id, checkpoint := q.checkpoint)
    ensures Fits(steps, q, start)
  {
    forall i | 0 <= i < |q.stepIds|
      ensures FitsAt(steps, q, start, i)
    {
      assert FitsAt(steps, p, start, i);
    }
  }

  /** The phases' steps are exactly the plan's steps in order, and the phases are maximal uniform runs. */
  lemma PhasesPartitionSteps(ident: Source -> string, steps: seq<Step>)
    ensures Listed(PhasesFor(ident, steps)) == Ids(steps) && MaximalRuns(steps, PhasesFor(ident, steps))
  {
    hide Covers, Listed, Grouped, PhasesFor;
    var grouped, phases := Grouped(steps, |steps|), PhasesFor(ident, steps);
    GroupedListsSteps(steps, |steps|);
    GroupedIsMaximal(steps, |steps|);
    NamingKeepsListing(ident, grouped, phases);
    assert Ids(steps)[..|steps|] == Ids(steps);
    forall k | 0 <= k < |phases|
      ensures Covers(steps, phases, k)
    {
      assert Covers(steps, grouped, k);
      NamingKeepsCovering(ident, steps, grouped, phases, k);
    }
    forall k | 0 <= k < |phases| - 1
      ensures Differ(phases[k], phases[k + 1])
    {
      assert Differ(grouped[k], grouped[k + 1]);
    }
  }

  // ---------- dependencies ----------

  /** The schema plan mentions a step's dependencies before the step. */
  ghost predicate DependenciesFirst(sp: SchemaPlan) {
    forall i, k | 0 <= i < |sp.steps| && 0 <= k < |sp.steps[i].dependsOn| :: ListedBefore(sp, i, sp.steps[i].dependsOn[k])
  }

  ghost predicate ListedBefore(sp: SchemaPlan, i: nat, id: string) {
    exists j :: 0 <= j < i && j < |sp.steps| && sp.steps[j].id == id
  }

  /** The identifiers of a step's own dependencies. */
  ghost predicate DependencyId(ident: Source -> string, s: SchemaStep, id: string) {
    exists k :: 0 <= k < |s.dependsOn| && id == ident(StepOf(s.dependsOn[k]))
  }

  lemma StableDiffers(ident: Source -> string, s: Source, t: Source)
    requires Stable(ident) && s != t
    ensures ident(s) != ident(t)
  {}

  lemma StepsExist(sp: SchemaPlan, i: nat, k: nat)
    requires Coherent(sp) && i < |sp.steps| && k < |sp.steps[i].dependsOn|
    ensures HasStep(sp, sp.steps[i].dependsOn[k])
  {}

  lemma DependencyMembers(ident: Source -> string, sp: SchemaPlan, i: nat, prepare: string, name: string, mode: Mode, id: string)
    requires Stable(ident) && Coherent(sp) && i < |sp.steps| && prepare == ident(PreparationOf(name, mode))
    ensures id in Nonempty(DependencyIds(ident, sp, sp.steps[i].dependsOn, prepare)) - {prepare} <==>
            DependencyId(ident, sp.steps[i], id)
  {
    hide Stable, Coherent, HasStep;
    var s := sp.steps[i];
    var raw := DependencyIds(ident, sp, s.dependsOn, prepare);
    if id in Nonempty(raw) - {prepare} {
      var m :| 0 <= m < |raw| && raw[m] == id;
      StepsExist(sp, i, m - 1);
      assert id == ident(StepOf(s.dependsOn[m - 1]));
    }
    if DependencyId(ident, s, id) {
      var k :| 0 <= k < |s.dependsOn| && id == ident(StepOf(s.dependsOn[k]));
      StepsExist(sp, i, k);
      StableNonempty(ident, StepOf(s.dependsOn[k]));
      StableDiffers(ident, StepOf(s.dependsOn[k]), PreparationOf(name, mode));
      assert raw[k + 1] == id;
    }
  }

  /** Every lifted step depends on the preparation first and then on exactly its own dependencies, sorted. */
  lemma LiftedDependencies(ident: Source -> string, t: Target, sp: SchemaPlan, i: nat)
    requires Stable(ident) && Coherent(sp) && i < |sp.steps|
    ensures var deps := Lifted(ident, t, sp, i).dependsOn;
      && deps != [] && deps[0] == ident(PreparationOf(t.name, t.mode)) && Increasing(deps[1..])
      && forall id :: id in deps[1..] <==> DependencyId(ident, sp.steps[i], id)
  {
    hide Coherent, Nonempty, DependencyIds, DependencyId, KindOf, Increasing, Sorted;
    var prepare := ident(PreparationOf(t.name, t.mode));
    var rest := Nonempty(DependencyIds(ident, sp, sp.steps[i].dependsOn, prepare)) - {prepare};
    assert ([prepare] + Sorted(rest))[1..] == Sorted(rest);
    forall id
      ensures id in Sorted(rest) <==> DependencyId(ident, sp.steps[i], id)
    {
      assert id in Sorted(rest) <==> id in Members(Sorted(rest));
      DependencyMembers(ident, sp, i, prepare, t.name, t.mode, id);
    }
  }

  ghost predicate StepBefore(steps: seq<Step>, i: nat, id: string) {
    exists j :: 0 <= j < i && j < |steps| && steps[j].id == id
  }

  /** With dependencies listed first, every step's dependencies come before it in the composed plan. */
  lemma ComposedDependenciesFirst(ident: Source -> string, t: Target, sp: SchemaPlan, i: nat, d: string)
    requires Stable(ident) && Coherent(sp) && DependenciesFirst(sp) && i <= |sp.steps|
    requires d in StepsFor(ident, t, sp, |sp.steps|)[i].dependsOn
    ensures StepBefore(StepsFor(ident, t, sp, |sp.steps|), i, d)
  {
    hide Lifted, DependenciesFirst, Coherent;
    var steps := StepsFor(ident, t, sp, |sp.steps|);
    if i > 0 {
      LiftedDependencies(ident, t, sp, i - 1);
      var deps := steps[i].dependsOn;
      if d == deps[0] {
        assert steps[0].id == d;
      } else {
        assert d in deps[1..];
        assert DependencyId(ident, sp.steps[i - 1], d);
        var k :| 0 <= k < |sp.steps[i - 1].dependsOn| && d == ident(StepOf(sp.steps[i - 1].dependsOn[k]));
        DependencyListed(sp, i - 1, k);
        var j :| 0 <= j < i - 1 && sp.steps[j].id == sp.steps[i - 1].dependsOn[k];
        LiftedId(ident, t, sp, j);
        assert steps[j + 1].id == d;
      }
    }
  }

  lemma DependencyListed(sp: SchemaPlan, i: nat, k: nat)
    requires DependenciesFirst(sp) && i < |sp.steps| && k < |sp.steps[i].dependsOn|
    ensures exists j :: 0 <= j < i && sp.steps[j].id == sp.steps[i].dependsOn[k]
  {
    assert ListedBefore(sp, i, sp.steps[i].dependsOn[k]);
  }

  lemma LiftedId(ident: Source -> string, t: Target, sp: SchemaPlan, i: nat)
    requires Stable(ident) && i < |sp.steps|
    ensures Lifted(ident, t, sp, i).id == ident(StepOf(sp.steps[i].id))
  {}

  lemma StepIdsDiffer(ident: Source -> string, t: Target, sp: SchemaPlan, i: nat, j: nat)
    requires Stable(ident) && Coherent(sp) && i <= |sp.steps| && j <= |sp.steps|
    requires StepsFor(ident, t, sp, |sp.steps|)[i].id == StepsFor(ident, t, sp, |sp.steps|)[j].id
    ensures i == j
  {
    hide Lifted;
    if i > 0 {
      LiftedId(ident, t, sp, i - 1);
    }
    if j > 0 {
      LiftedId(ident, t, sp, j - 1);
    }
  }

  /** Stopping after any phase leaves a set of steps closed under dependencies. */
  lemma CheckpointsAreClosed(ident: Source -> string, t: Target, sp: SchemaPlan, k: nat, i: nat, d: string)
    requires Stable(ident) && Coherent(sp) && DependenciesFirst(sp) && i <= |sp.steps|
    requires k <= |PhasesFor(ident, StepsFor(ident, t, sp, |sp.steps|))|
    requires var steps := StepsFor(ident, t, sp, |sp.steps|);
      steps[i].id in Listed(PhasesFor(ident, steps)[..k]) && d in steps[i].dependsOn
    ensures d in Listed(PhasesFor(ident, StepsFor(ident, t, sp, |sp.steps|))[..k])
  {
    hide Lifted, StepsFor, DependenciesFirst, Coherent;
    var steps := StepsFor(ident, t, sp, |sp.steps|);
    var phases := PhasesFor(ident, steps);
    var done := Listed(phases[..k]);
    PhasesPartitionSteps(ident, steps);
    ListedPrefix(phases, k);
    var m :| 0 <= m < |done| && done[m] == steps[i].id;
    StepCount(ident, t, sp);
    assert steps[m].id == Ids(steps)[m] == done[m];
    StepIdsDiffer(ident, t, sp, i, m);
    ComposedDependenciesFirst(ident, t, sp, i, d);
    var j :| 0 <= j < i && steps[j].id == d;
    assert done[j] == Ids(steps)[j] == d;
  }

  lemma StepCount(ident: Source -> string, t: Target, sp: SchemaPlan)
    requires Stable(ident)
    ensures |StepsFor(ident, t, sp, |sp.steps|)| == |sp.steps| + 1
  {}

  lemma {:induction false} ListedPrefix(phases: seq<Phase>, k: nat)
    requires k <= |phases|
    ensures Listed(phases[..k]) <= Listed(phases)
  {
    if k < |phases| {
      ListedPrefix(phases[..|phases| - 1], k);
      assert phases[..|phases| - 1][..k] == phases[..k];
    } else {
      assert phases[..k] == phases;
    }
  }

  // ---------- composing and validating ----------

  /** A plan's graph as composition builds it. */
  ghost predicate BuiltFrom(ident: Source -> string, t: Target, sp: SchemaPlan, steps: seq<Step>, phases: seq<Phase>)
    requires Stable(ident)
  {
    steps == StepsFor(ident, Normalize(t), sp, |sp.steps|) && phases == PhasesFor(ident, steps)
  }

  method Compose(ident: Source -> string, t: Target, sp: SchemaPlan) returns (steps: seq<Step>, phases: seq<Phase>)
    requires Stable(ident)
    ensures BuiltFrom(ident, t, sp, steps, phases)
  {
    hide Stable, Grouped, KindOf, Normalize;
    var target := Normalize(t);
    var prepare := ident(PreparationOf(target.name, target.mode));
    steps := [Preparation(ident, target)];
    for i := 0 to |sp.steps|
      invariant steps == StepsFor(ident, target, sp, i)
    {
      var s := sp.steps[i];
      var kind := KindOf(sp.changes, s.changeId);
      StableNonempty(ident, PreparationOf(target.name, target.mode));
      var dependencies := UniqueSorted(DependencyIds(ident, sp, s.dependsOn, prepare));
      steps := steps + [Step(ident(StepOf(s.id)), ExecuteSchema, StageForKind(kind), ScopeForKind(kind), s.transaction,
                             s.id, s.changeId, dependencies)];
    }
    phases := [];
    GroupedStart(steps);
    for n := 0 to |steps|
      invariant phases == Grouped(steps, n)
    {
      var s := steps[n];
      GroupedNext(steps, n);
      ghost var before := phases;
      if phases == [] || !SamePhase(phases[|phases| - 1], s) {
        phases := phases + [Phase("", "", s.stage, s.scope, s.transaction, [])];
      }
      var last := |phases| - 1;
      phases := phases[last := phases[last].(stepIds := phases[last].stepIds + [s.id])];
      assert [] + [s.id] == [s.id];
      assert last == |before| ==> phases == before + [phases[last]];
    }
    ghost var grouped := phases;
    for k := 0 to |phases|
      invariant |phases| == |grouped|
      invariant forall m | 0 <= m < k :: phases[m] == Named(ident, grouped[m], m)
      invariant forall m | k <= m < |phases| :: phases[m] == grouped[m]
    {
      phases := phases[k := Named(ident, phases[k], k)];
    }
    assert phases == PhasesFor(ident, steps);
  }

  lemma StableNonempty(ident: Source -> string, s: Source)
    requires Stable(ident)
    ensures ident(s) != ""
  {}

  lemma GroupedStart(steps: seq<Step>)
    ensures Grouped(steps, 0) == []
  {}

  lemma GroupedNext(steps: seq<Step>, n: nat)
    requires n < |steps|
    ensures var before, s := Grouped(steps, n), steps[n];
      Grouped(steps, n + 1) ==
      if before == [] || !SamePhase(before[|before| - 1], s)
      then before + [Phase("", "", s.stage, s.scope, s.transaction, [s.id])]
      else before[|before| - 1 := before[|before| - 1].(stepIds := before[|before| - 1].stepIds + [s.id])]
  {}

  function DigestFor(p: Plan): Digest {
    DigestOf(p.version, p.target, p.schemaPlan, p.preconditions, p.steps, p.phases)
  }

  // ---------- preconditions ----------

  predicate IncreasingIds(rs: seq<Precondition>) { forall i, j | 0 <= i < j < |rs| :: Less(rs[i].id, rs[j].id) }

  predicate DistinctIds(rs: seq<Precondition>) { forall i, j | 0 <= i < j < |rs| :: rs[i].id != rs[j].id }

  /** None, or a valid document in strict order of identifiers; `valid` is the document's own validation. */
  predicate Acceptable(valid: seq<Precondition> -> bool, rs: seq<Precondition>) { rs == [] || (valid(rs) && IncreasingIds(rs)) }

  method CheckPreconditions(valid: seq<Precondition> -> bool, rs: seq<Precondition>) returns (ok: bool)
    ensures ok <==> Acceptable(valid, rs)
  {
    if |rs| > 0 {
      if !valid(rs) {
        return false;
      }
      for i := 1 to |rs|
        invariant forall a, b | 0 <= a < b < i :: Less(rs[a].id, rs[b].id)
      {
        if !Less(rs[i - 1].id, rs[i].id) {
          return false;
        }
        forall a | 0 <= a < i
          ensures Less(rs[a].id, rs[i].id)
        {
          if a < i - 1 {
            LessTransitive(rs[a].id, rs[i - 1].id, rs[i].id);
          }
        }
      }
    }
    ok := true;
  }

  /** No later identifier is smaller. */
  predicate SortedIds(rs: seq<Precondition>) { forall i, j | 0 <= i < j < |rs| :: !Less(rs[j].id, rs[i].id) }

  lemma NotLessTransitive(a: string, b: string, c: string)
    requires !Less(b, a) && !Less(c, b)
    ensures !Less(c, a)
  {
    LessTotal(a, b);
    LessTotal(b, c);
    LessIrreflexive(a);
    LessIrreflexive(c);
    if Less(a, b) && Less(b, c) {
      LessTransitive(a, b, c);
      if Less(c, a) {
        LessTransitive(a, c, a);
      }
    }
  }

  method InsertById(rs: seq<Precondition>, x: Precondition) returns (out: seq<Precondition>)
    requires SortedIds(rs)
    ensures SortedIds(out) && multiset(out) == multiset(rs) + multiset{x}
  {
    var k := 0;
    while k < |rs| && Less(rs[k].id, x.id)
      invariant k <= |rs| && forall i | 0 <= i < k :: Less(rs[i].id, x.id)
    {
      k := k + 1;
    }
    InsertedById(rs, x, k);
    out := rs[..k] + [x] + rs[k..];
  }

  lemma InsertedById(rs: seq<Precondition>, x: Precondition, k: nat)
    requires SortedIds(rs) && k <= |rs| && (forall i | 0 <= i < k :: Less(rs[i].id, x.id)) && (k < |rs| ==> !Less(rs[k].id, x.id))
    ensures var out := rs[..k] + [x] + rs[k..]; SortedIds(out) && multiset(out) == multiset(rs) + multiset{x}
  {
    var out := rs[..k] + [x] + rs[k..];
    assert rs == rs[..k] + rs[k..];
    forall i, j | 0 <= i < j < |out|
      ensures !Less(out[j].id, out[i].id)
    {
      if i == k {
        assert out[j] == rs[j - 1];
        if j - 1 > k {
          NotLessTransitive(x.id, rs[k].id, rs[j - 1].id);
        }
      } else if j == k {
        LessIrreflexive(x.id);
        if Less(x.id, rs[i].id) {
          LessTransitive(x.id, rs[i].id, x.id);
        }
      }
    }
  }

  method SortById(rs: seq<Precondition>) returns (out: seq<Precondition>)
    ensures SortedIds(out) && multiset(out) == multiset(rs)
  {
    out := [];
    for i := 0 to |rs|
      invariant SortedIds(out) && multiset(out) == multiset(rs[..i])
    {
      out := InsertById(out, rs[i]);
      assert rs[..i + 1] == rs[..i] + [rs[i]];
    }
    assert rs[..|rs|] == rs;
  }

  /** Sorting makes identifiers strictly increasing exactly if they were distinct. */
  lemma SortedDistinct(rs: seq<Precondition>, out: seq<Precondition>)
    requires SortedIds(out) && multiset(out) == multiset(rs)
    ensures IncreasingIds(out) <==> DistinctIds(rs)
  {
    if DistinctIds(rs) {
      forall i, j | 0 <= i < j < |out|
        ensures Less(out[i].id, out[j].id)
      {
        SharedIdentifier(out, rs, i, j);
        LessTotal(out[i].id, out[j].id);
      }
    }
    if IncreasingIds(out) {
      forall a, b | 0 <= a < b < |out|
        ensures out[a].id != out[b].id
      {
        LessIrreflexive(out[a].id);
      }
      forall i, j | 0 <= i < j < |rs|
        ensures rs[i].id != rs[j].id
      {
        SharedIdentifier(rs, out, i, j);
      }
    }
  }

  /** Two places with one identifier stay two places in any order. */
  lemma SharedIdentifier(x: seq<Precondition>, y: seq<Precondition>, i: nat, j: nat)
    requires multiset(x) == multiset(y) && i < j < |x|
    ensures x[i].id == x[j].id ==> exists a, b :: 0 <= a < b < |y| && y[a].id == y[b].id
  {
    if x[i].id == x[j].id {
      assert x[i] in multiset(y) && x[j] in multiset(y);
      if x[i] == x[j] {
        assert x == x[..j] + x[j..] && x[..j][i] == x[i] && x[j..][0] == x[j];
        assert multiset(x)[x[i]] >= 2;
        OccursTwice(y, x[i]);
      } else {
        var a, b :| 0 <= a < |y| && 0 <= b < |y| && y[a] == x[i] && y[b] == x[j];
        assert a < b || b < a;
      }
    }
  }

  lemma {:induction false} OccursTwice(y: seq<Precondition>, r: Precondition)
    requires multiset(y)[r] >= 2
    ensures exists a, b :: 0 <= a < b < |y| && y[a] == r && y[b] == r
  {
    var last := |y| - 1;
    assert y == y[..last] + [y[last]];
    if y[last] == r {
      assert r in y[..last];
      var a :| 0 <= a < last && y[a] == r;
    } else {
      OccursTwice(y[..last], r);
      var a, b :| 0 <= a < b < last && y[..last][a] == r && y[..last][b] == r;
      assert y[a] == r && y[b] == r;
    }
  }

  // ---------- whole plans ----------

  /** Everything but the preconditions and the digest. */
  ghost predicate Composed(ident: Source -> string, p: Plan)
    requires Stable(ident)
  {
    && p.version == PLAN_VERSION && ValidTarget(p.target) && Coherent(p.schemaPlan)
    && BuiltFrom(ident, p.target, p.schemaPlan, p.steps, p.phases)
  }

  /** Accepts exactly the plans composition builds for their target and schema plan, with ordered preconditions and their own digest. */
  method Validate(ident: Source -> string, valid: seq<Precondition> -> bool, p: Plan) returns (ok: bool)
    requires Stable(ident)
    ensures ok <==> Composed(ident, p) && Acceptable(valid, p.preconditions) && p.digest == DigestFor(p)
  {
    hide ValidTarget, Coherent, Stable, StepsFor, PhasesFor, Acceptable;
    if p.version != PLAN_VERSION || p.digest.NoDigest? {
      return false;
    }
    if !ValidTarget(p.target) || !Coherent(p.schemaPlan) {
      return false;
    }
    ok := CheckPreconditions(valid, p.preconditions);
    if !ok {
      return;
    }
    var steps, phases := Compose(ident, p.target, p.schemaPlan);
    if steps != p.steps || phases != p.phases {
      return false;
    }
    ok := p.digest == DigestFor(p);
  }

  /** Composition succeeds exactly for valid inputs, and what it returns is accepted. */
  method ComposePlan(ident: Source -> string, valid: seq<Precondition> -> bool, t: Target, sp: SchemaPlan) returns (r: Option<Plan>)
    requires Stable(ident)
    ensures r.Some? <==> ValidTarget(Normalize(t)) && Coherent(sp)
    ensures r.Some? ==>
      && r.value.target == Normalize(t) && r.value.schemaPlan == sp && r.value.digest == DigestFor(r.value)
      && r.value.preconditions == [] && BuiltFrom(ident, t, sp, r.value.steps, r.value.phases)
  {
    hide ValidTarget, Coherent, Stable, StepsFor, PhasesFor, Normalize;
    var target := Normalize(t);
    if !ValidTarget(target) || !Coherent(sp) {
      return None;
    }
    NormalizeTwice(t);
    var steps, phases := Compose(ident, target, sp);
    var p := Plan(PLAN_VERSION, target, sp, [], steps, phases, NoDigest);
    p := p.(digest := DigestFor(p));
    var ok := Validate(ident, valid, p);
    r := if ok then Some(p) else None;
  }

  /** The resources in the order of their identifiers. */
  ghost predicate OrderOf(rs: seq<Precondition>, ordered: seq<Precondition>) {
    SortedIds(ordered) && multiset(ordered) == multiset(rs)
  }

  /** Resources with distinct identifiers have one order, however they were given. */
  lemma OrderIsUnique(rs: seq<Precondition>, a: seq<Precondition>, b: seq<Precondition>)
    requires DistinctIds(rs) && OrderOf(rs, a) && OrderOf(rs, b)
    ensures a == b
  {
    SortedDistinct(rs, a);
    SortedDistinct(rs, b);
    IncreasingIsUnique(a, b);
  }

  lemma {:induction false} IncreasingIsUnique(a: seq<Precondition>, b: seq<Precondition>)
    requires IncreasingIds(a) && IncreasingIds(b) && multiset(a) == multiset(b)
    ensures a == b
  {
    hide Less;
    assert |a| == |multiset(a)| == |multiset(b)| == |b|;
    if a != [] {
      SameFirstId(a, b);
      assert a == [a[0]] + a[1..] && b == [b[0]] + b[1..];
      assert multiset(a[1..]) == multiset(a) - multiset{a[0]};
      IncreasingIsUnique(a[1..], b[1..]);
    }
  }

  lemma SameFirstId(a: seq<Precondition>, b: seq<Precondition>)
    requires IncreasingIds(a) && IncreasingIds(b) && multiset(a) == multiset(b) && a != [] && b != []
    ensures a[0] == b[0]
  {
    hide Less;
    assert a[0] in multiset(b) && b[0] in multiset(a);
    var i :| 0 <= i < |b| && b[i] == a[0];
    var j :| 0 <= j < |a| && a[j] == b[0];
    if i > 0 && j > 0 {
      LessTransitive(a[0].id, b[0].id, a[0].id);
      LessIrreflexive(a[0].id);
    }
  }

  /**
   Binding preconditions succeeds exactly for composed plans and resources that are none,
   or have distinct identifiers and form a valid document in the order of identifiers;
   the plan then holds exactly those resources in that order.
   */
  method WithPreconditions(ident: Source -> string, valid: seq<Precondition> -> bool, p: Plan, rs: seq<Precondition>)
    returns (r: Option<Plan>)
    requires Stable(ident)
    ensures r.Some? <==>
      && Composed(ident, p)
      && (rs == [] || (DistinctIds(rs) && exists ordered :: OrderOf(rs, ordered) && valid(ordered)))
    ensures r.Some? ==>
      && OrderOf(rs, r.value.preconditions) && r.value.digest == DigestFor(r.value)
      && r.value == p.(preconditions := r.value.preconditions, digest := r.value.digest)
  {
    hide ValidTarget, Coherent, Stable, BuiltFrom, SortedIds, IncreasingIds, DistinctIds;
    var sorted := SortById(rs);
    SortedDistinct(rs, sorted);
    assert |multiset(sorted)| == |multiset(rs)|;
    assert OrderOf(rs, sorted);
    forall ordered | DistinctIds(rs) && OrderOf(rs, ordered)
      ensures ordered == sorted
    {
      OrderIsUnique(rs, ordered, sorted);
    }
    var q := p.(preconditions := sorted, digest := NoDigest);
    q := q.(digest := DigestFor(q));
    var ok := Validate(ident, valid, q);
    r := if ok then Some(q) else None;
  }
}
