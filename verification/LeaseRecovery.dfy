/**
 Recovery: what one undisturbed cleanup makes of the state a process left behind,
 wherever it stopped.
 */
module LeaseRecovery {
  import opened Options
  import opened LeaseRecords
  import opened LeaseProtocol

  // ---------- cleanup as a function of the stored state ----------

  /**
   One resource: verify, drop what is owned unless the server refuses to drop a role that
   a live database depends on, mark the row released, save the lease.
   */
  function ReleaseOne(s: Sys, r: Resource): (out: (Sys, seq<Failure>))
    ensures |out.0.lease.resources| == |s.lease.resources|
  {
    match VerifyOwned(s, r)
    case Refused => (s, [Failure(r.kind, Ownership)])
    case Absent(recorded) => SaveRelease(if recorded then RowReleased(s, r.kind) else s, r)
    case Owned =>
      if Blocked(s.live, r.kind) then (s, [Failure(r.kind, Remove)])
      else SaveRelease(RowReleased(s.(live := s.live - {r.kind}), r.kind), r)
  }

  function RowReleased(s: Sys, k: Kind): Sys {
    if k in s.registry then s.(registry := s.registry[k := s.registry[k].(state := Released)]) else s
  }

  function SaveRelease(s: Sys, r: Resource): (Sys, seq<Failure>) {
    var next := WithResource(s.lease, r.(state := Released));
    if Accepts(s.lease, next) then (s.(lease := next), []) else (s, [Failure(r.kind, Persist)])
  }

  /** Resources n-1 down to 0, collecting failures in that order. */
  function ReleaseDown(s: Sys, n: nat): (Sys, seq<Failure>)
    requires n <= |s.lease.resources|
    ensures |ReleaseDown(s, n).0.lease.resources| == |s.lease.resources|
    decreases n
  {
    if n == 0 then (s, [])
    else
      var (s1, first) := ReleaseOne(s, s.lease.resources[n - 1]);
      var (s2, rest) := ReleaseDown(s1, n - 1);
      (s2, first + rest)
  }

  function Finish(s: Sys, failures: seq<Failure>): Sys {
    var next := if failures == [] then Cleaned_(s.lease) else Failed_(s.lease, failures);
    if Accepts(s.lease, next) then s.(lease := next) else s
  }

  /** The whole cleanup of an allocation that is not yet cleaned; a cleaned one is only re-verified. */
  function Cleanup(s: Sys): Sys {
    if s.lease.state.Cleaned? || !Accepts(s.lease, Cleaning_(s.lease)) then s
    else
      var (released, failures) := ReleaseDown(s.(lease := Cleaning_(s.lease)), |s.lease.resources|);
      Finish(released.(credential := false), failures)
  }

  // ---------- states that provisioning and cleanup leave behind ----------

  /** What the three stores, and the running process, say about one kind. `plan` is its planned resource. */
  datatype View = View(
    plan: Resource, admin: nat, resource: Option<Resource>, row: Option<Row>, live: Option<Live>, gone: bool)

  function ViewOf(s: Sys, k: Kind): View {
    View(
      PlannedResource(s.lease, k),
      s.admin,
      Find(s.lease.resources, k),
      if k in s.registry then Some(s.registry[k]) else None,
      if k in s.live then Some(s.live[k]) else None,
      k in s.gone)
  }

  predicate OurLive(v: View, live: Live, oid: nat) {
    && live.oid == oid
    && live.marker == v.plan.marker
    && if v.plan.kind.Database? then live.owner == v.admin else live.restricted
  }

  /** How far the stores may disagree about one kind. */
  predicate Explained(v: View) {
    && (v.gone ==> v.live.None?)
    && match v.resource
       case None => v.row.None? && v.live.None?
       case Some(r) =>
         && r.kind == v.plan.kind && r.name == v.plan.name && r.marker == v.plan.marker
         && (r.state.Planned? || r.state.Acquired? || r.state.Released?)
         && (r.state.Planned? ==> r == v.plan && ExplainedPlan(v))
         && (r.state.Acquired? ==> ExplainedAcquired(v, r.oid))
         && (r.state.Released? ==> ExplainedReleased(v, r.oid))
  }

  function PlanRow(v: View): Row { Row(v.plan.name, v.plan.marker, Planned, v.admin, 0) }

  /** Planned in the lease: creation may have gone any distance, and so may a cleanup after it. */
  predicate ExplainedPlan(v: View) {
    match v.row
    case None => v.live.None?
    case Some(row) =>
      if row.state.Planned? then
        && v.plan.kind.Database? && row == PlanRow(v)
        && (v.live.Some? ==> v.live.value.oid != 0 && v.live.value.owner == v.admin && v.live.value.dependent == 0)
      else if row.state.Acquired? then
        row.oid != 0 && (v.live.Some? ==> OurLive(v, v.live.value, row.oid))
      else row.state.Released? && v.live.None?
  }

  predicate ExplainedAcquired(v: View, oid: nat) {
    && v.row.Some? && oid == v.row.value.oid && oid != 0
    && if v.row.value.state.Acquired? then v.live.Some? ==> OurLive(v, v.live.value, oid)
       else v.row.value.state.Released? && v.live.None?
  }

  predicate ExplainedReleased(v: View, oid: nat) {
    && v.live.None?
    && (v.row.Some? ==> v.row.value.state.Released? && (oid != 0 ==> oid == v.row.value.oid))
  }

  ghost predicate Undisturbed(s: Sys) { Inv(s) && Consistent(s) }

  /** The role was planned before the database, so reverse order reaches the database first. */
  ghost predicate RoleFirst(rs: seq<Resource>) {
    forall j | 0 <= j < |rs| && rs[j].kind.Database? :: RoleBelow(rs, j)
  }

  ghost predicate RoleBelow(rs: seq<Resource>, j: nat)
    requires j <= |rs|
  {
    exists i :: 0 <= i < j && rs[i].kind.Role?
  }

  ghost predicate Consistent(s: Sys) {
    && RoleFirst(s.lease.resources)
    && (forall k | k in s.live || k in s.registry :: k.Role? || k.Database?)
    && Explained(ViewOf(s, Role))
    && Explained(ViewOf(s, Database))
    && (s.lease.state.Allocating? ==> s.gone == {} && s.lease.cleanupErrors == [])
    && (s.lease.state.Cleaning? ==> s.lease.cleanupErrors == [])
    && (s.lease.state.Cleaned? ==> !s.credential)
  }

  /** The database was created and the process ended before marking it. */
  predicate UnmarkedDatabase(s: Sys) {
    Database in s.live && Database in s.registry && s.registry[Database].state.Planned?
  }

  /** No process is running: nothing is remembered beyond the stores. */
  predicate Stopped(s: Sys) { !s.awaitingMark && s.gone == {} }

  /** Objects may be missing afterwards; those that are left are as they were. */
  ghost predicate OnlyRemoves(s: Sys, t: Sys) {
    t == s.(live := t.live, used := t.used) && forall k | k in t.live :: k in s.live && t.live[k] == s.live[k]
  }

  /** Other sessions at most drop objects. */
  ghost predicate Quiet(run: seq<Sys>, acts: seq<Action>) {
    forall i | 0 <= i < |acts| && i + 1 < |run| && acts[i].Foreign? :: OnlyRemoves(run[i], run[i + 1])
  }

  lemma QuietGrows(run: seq<Sys>, acts: seq<Action>, a: Action, t: Sys)
    requires Quiet(run, acts) && |run| == |acts| + 1 && (a.Foreign? ==> OnlyRemoves(run[|run| - 1], t))
    ensures Quiet(run + [t], acts + [a])
  {
    hide OnlyRemoves;
    var more, moreActs := run + [t], acts + [a];
    forall i | 0 <= i < |moreActs| && i + 1 < |more| && moreActs[i].Foreign?
      ensures OnlyRemoves(more[i], more[i + 1])
    {
      if i < |acts| {
        assert more[i] == run[i] && more[i + 1] == run[i + 1] && moreActs[i] == acts[i];
      }
    }
  }

  ghost predicate QuietRun(run: seq<Sys>, acts: seq<Action>) {
    IsRun(run, acts) && run[0].live == map[] && Quiet(run, acts)
  }

  // ---------- every state of a quiet run is explained ----------

  /** What an action does to the view of one kind. */
  ghost predicate Effect(a: Action, v: View, w: View) {
    var k := v.plan.kind;
    match a
    case PlanResource(p) => if p == k then v.resource.None? && w == v.(resource := Some(v.plan)) else w == v
    case CreateRole(oid) =>
      if k.Role? then
        && v.resource == Some(v.plan) && oid != 0 && !v.gone
        && w == v.(row := Some(PlanRow(v).(state := Acquired, oid := oid)),
                   live := Some(Live(oid, 0, v.plan.marker, true, 0)))
      else w == v
    case RegisterPlan =>
      if k.Database? then v.resource == Some(v.plan) && v.row.None? && w == v.(row := Some(PlanRow(v))) else w == v
    case CreateDatabase(oid) =>
      if k.Database? then
        && v.resource == Some(v.plan) && v.row == Some(PlanRow(v)) && oid != 0 && !v.gone
        && w == v.(live := Some(Live(oid, v.admin, NO_COMMENT, false, 0)))
      else w == v
    case MarkDatabase =>
      if k.Database? then
        && v.resource == Some(v.plan) && v.row.Some? && v.row.value.state.Planned? && !v.gone
        && v.live.Some? && v.live.value.owner == v.admin && w.live.Some?
        && w == v.(row := Some(v.row.value.(state := Acquired, oid := v.live.value.oid)),
                   live := Some(v.live.value.(marker := v.plan.marker, dependent := w.live.value.dependent)))
      else w == v
    case RecordAcquired(p) =>
      if p == k then
        && v.resource == Some(v.plan) && v.row.Some? && v.row.value.state.Acquired?
        && w == v.(resource := Some(v.plan.(state := Acquired, oid := v.row.value.oid)))
      else w == v
    case BeginCleanup => w == v.(gone := false)
    case Restart => w == v.(gone := false)
    case ObserveAbsent(r) => if r.kind == k then v.live.None? && w == v.(gone := true) else w == v
    case Drop(r) => if r.kind == k then w == v.(live := None, gone := true) else w == v
    case RecordReleased(p) =>
      if p == k then v.gone && v.row.Some? && w == v.(row := Some(v.row.value.(state := Released))) else w == v
    case SaveReleased(p) =>
      if p == k then
        && v.gone && (v.row.Some? ==> v.row.value.state.Released?) && v.resource.Some?
        && w == v.(resource := Some(v.resource.value.(state := Released)))
      else w == v
    case _ => w == v
  }

  lemma EffectKeepsExplained(a: Action, v: View, w: View)
    requires Explained(v) && Effect(a, v, w)
    requires v.plan.state.Planned? && v.plan.oid == 0
    requires a.Drop? && a.resource.kind == v.plan.kind ==> v.row.Some? && !v.row.value.state.Planned?
    ensures Explained(w)
  {
  }

  /** Planning a kind twice would not validate. */
  lemma PlannedOnce(l: Record, k: Kind)
    requires DistinctKinds(WithPlanned(l, k).resources)
    ensures Find(l.resources, k).None?
  {
    var rs := WithPlanned(l, k).resources;
    forall i | 0 <= i < |l.resources|
      ensures l.resources[i].kind != k
    {
      assert rs[i].kind != rs[|l.resources|].kind;
    }
  }

  lemma PlanEffect(s: Sys, a: Action, t: Sys, k: Kind)
    requires Next(s, a, t) && a.PlanResource?
    ensures Effect(a, ViewOf(s, k), ViewOf(t, k))
  {
    PlannedOnce(s.lease, a.kind);
    FindAppended(s.lease.resources, PlannedResource(s.lease, a.kind), k);
  }

  lemma AcquireEffect(s: Sys, a: Action, t: Sys, k: Kind)
    requires Next(s, a, t) && a.RecordAcquired?
    ensures Effect(a, ViewOf(s, k), ViewOf(t, k))
  {
    hide Valid;
    FindReplaced(s.lease.resources, AcquiredResource(s.lease, a.kind, s.registry[a.kind].oid), k);
  }

  lemma ReleaseEffect(s: Sys, a: Action, t: Sys, k: Kind)
    requires Next(s, a, t) && a.SaveReleased?
    ensures Effect(a, ViewOf(s, k), ViewOf(t, k))
  {
    hide Valid;
    FindReplaced(s.lease.resources, Find(s.lease.resources, a.kind).value.(state := Released), k);
  }

  lemma CreateEffect(s: Sys, a: Action, t: Sys, k: Kind)
    requires Next(s, a, t) && (a.CreateRole? || a.RegisterPlan? || a.CreateDatabase? || a.MarkDatabase?)
    requires s.gone == {}
    ensures Effect(a, ViewOf(s, k), ViewOf(t, k))
  {
    hide Valid;
  }

  lemma RemoveEffect(s: Sys, a: Action, t: Sys, k: Kind)
    requires Next(s, a, t) && (a.ObserveAbsent? || a.Drop? || a.RecordReleased?)
    ensures Effect(a, ViewOf(s, k), ViewOf(t, k))
  {
    hide Valid;
  }

  lemma StepEffect(s: Sys, a: Action, t: Sys, k: Kind)
    requires Next(s, a, t) && !a.Foreign?
    requires s.lease.state.Allocating? ==> s.gone == {}
    ensures Effect(a, ViewOf(s, k), ViewOf(t, k))
  {
    hide Valid;
    if a.PlanResource? {
      PlanEffect(s, a, t, k);
    } else if a.RecordAcquired? {
      AcquireEffect(s, a, t, k);
    } else if a.SaveReleased? {
      ReleaseEffect(s, a, t, k);
    } else if a.CreateRole? || a.RegisterPlan? || a.CreateDatabase? || a.MarkDatabase? {
      CreateEffect(s, a, t, k);
    } else if a.ObserveAbsent? || a.Drop? || a.RecordReleased? {
      RemoveEffect(s, a, t, k);
    }
  }

  lemma DropNeedsRecordedRow(s: Sys, r: Resource, k: Kind)
    requires VerifyOwned(s, r).Owned? && r.kind == k && Explained(ViewOf(s, k))
    ensures ViewOf(s, k).row.Some? && !ViewOf(s, k).row.value.state.Planned?
  {
  }

  lemma ExplainedStep(s: Sys, a: Action, t: Sys, k: Kind)
    requires Next(s, a, t) && !a.Foreign? && Explained(ViewOf(s, k))
    requires s.lease.state.Allocating? ==> s.gone == {}
    ensures Explained(ViewOf(t, k))
  {
    hide Valid;
    StepEffect(s, a, t, k);
    if a.Drop? && a.resource.kind == k {
      DropNeedsRecordedRow(s, a.resource, k);
    }
    EffectKeepsExplained(a, ViewOf(s, k), ViewOf(t, k));
  }

  lemma PlanKeepsOrder(rs: seq<Resource>, r: Resource)
    requires RoleFirst(rs) && (r.kind.Database? ==> Role in Kinds(rs))
    ensures RoleFirst(rs + [r])
  {
    var more := rs + [r];
    forall j | 0 <= j < |more| && more[j].kind.Database?
      ensures RoleBelow(more, j)
    {
      if j < |rs| {
        assert RoleBelow(rs, j);
        var i :| 0 <= i < j && rs[i].kind.Role?;
        assert more[i].kind.Role?;
      } else {
        var i :| 0 <= i < |rs| && rs[i].kind == Role;
        assert more[i].kind.Role?;
      }
    }
  }

  lemma SameKindsKeepOrder(rs: seq<Resource>, more: seq<Resource>)
    requires RoleFirst(rs) && |more| == |rs| && forall i | 0 <= i < |rs| :: more[i].kind == rs[i].kind
    ensures RoleFirst(more)
  {
    forall j | 0 <= j < |more| && more[j].kind.Database?
      ensures RoleBelow(more, j)
    {
      assert RoleBelow(rs, j);
      var i :| 0 <= i < j && rs[i].kind.Role?;
      assert more[i].kind.Role?;
    }
  }

  lemma OrderStep(s: Sys, a: Action, t: Sys)
    requires RoleFirst(s.lease.resources) && Next(s, a, t)
    ensures RoleFirst(t.lease.resources)
  {
    hide RoleFirst, Accepts, VerifyOwned, IsPlanned, Kinds;
    if a.PlanResource? {
      PlanKeepsOrder(s.lease.resources, PlannedResource(s.lease, a.kind));
    } else {
      SameKindsKeepOrder(s.lease.resources, t.lease.resources);
    }
  }

  lemma ConsistentStep(s: Sys, a: Action, t: Sys)
    requires Consistent(s) && Next(s, a, t) && !a.Foreign?
    ensures Consistent(t)
  {
    hide Valid, RoleFirst;
    OrderStep(s, a, t);
    ExplainedStep(s, a, t, Role);
    ExplainedStep(s, a, t, Database);
  }

  lemma UndisturbedStep(s: Sys, a: Action, t: Sys)
    requires Undisturbed(s) && Next(s, a, t) && !a.Foreign?
    ensures Undisturbed(t)
  {
    InvStep(s, a, t);
    ConsistentStep(s, a, t);
  }

  lemma StillExplained(v: View)
    requires Explained(v)
    ensures Explained(v.(live := None))
  {
  }

  /** The stores stay explained when somebody else drops objects. */
  lemma RemovalKeeps(s: Sys, t: Sys)
    requires Undisturbed(s) && Next(s, Foreign, t) && OnlyRemoves(s, t)
    ensures Undisturbed(t)
  {
    hide Valid, Explained;
    InvStep(s, Foreign, t);
    StillExplained(ViewOf(s, Role));
    StillExplained(ViewOf(s, Database));
  }

  lemma {:induction false} QuietRunsStayExplained(run: seq<Sys>, acts: seq<Action>, i: nat)
    requires QuietRun(run, acts) && i < |run|
    ensures Undisturbed(run[i])
  {
    if i > 0 {
      QuietRunsStayExplained(run, acts, i - 1);
      assert StepAt(run, acts, i - 1);
      if acts[i - 1].Foreign? {
        RemovalKeeps(run[i - 1], run[i]);
      } else {
        UndisturbedStep(run[i - 1], acts[i - 1], run[i]);
      }
    }
  }

  // ---------- what cleanup makes of such a state ----------

  lemma ReleaseAccepted(l: Record, i: nat)
    requires Valid(l) && l.state.Cleaning? && i < |l.resources|
    ensures Accepts(l, WithResource(l, l.resources[i].(state := Released)))
    ensures WithResource(l, l.resources[i].(state := Released)).resources ==
            l.resources[i := l.resources[i].(state := Released)]
  {
    var r := l.resources[i].(state := Released);
    var next := WithResource(l, r);
    assert next.resources == l.resources[i := r];
    assert Kinds(next.resources) == Kinds(l.resources) by {
      assert forall j | 0 <= j < |l.resources| :: next.resources[j].kind == l.resources[j].kind;
    }
    forall j | 0 <= j < |l.resources|
      ensures ValidResource(next.resources[j]) && ResourceAdvances(l.resources[j], next.resources[j])
    {
      assert ValidResource(l.resources[j]);
    }
  }

  predicate Stuck(s: Sys, r: Resource) { r.kind.Database? && UnmarkedDatabase(s) }

  /** An explained resource is refused exactly when it is the unmarked database. */
  lemma VerdictOf(s: Sys, r: Resource)
    requires Find(s.lease.resources, r.kind) == Some(r) && Explained(ViewOf(s, r.kind))
    requires r.kind in s.registry ==>
      && s.registry[r.kind].name == s.lease.ResourceName()
      && s.registry[r.kind].marker == s.lease.Marker()
      && s.registry[r.kind].adminOid == s.admin
    ensures VerifyOwned(s, r).Refused? <==> Stuck(s, r)
    ensures VerifyOwned(s, r).Absent? ==> VerifyOwned(s, r).recorded == (r.kind in s.registry)
  {
  }

  function AtRest(s: Sys): Sys { s.(awaitingMark := false, gone := {}) }

  lemma RestartKeeps(s: Sys)
    requires Undisturbed(s)
    ensures Undisturbed(AtRest(s))
  {
    UndisturbedStep(s, Restart, AtRest(s));
  }

  lemma SaveKeeps(s: Sys, i: nat)
    requires Undisturbed(s) && s.lease.state.Cleaning? && i < |s.lease.resources|
    requires var k := s.lease.resources[i].kind;
      k in s.gone && (k in s.registry ==> s.registry[k].state.Released?)
    ensures Undisturbed(AtRest(s.(lease := WithResource(s.lease, s.lease.resources[i].(state := Released)))))
  {
    var r := s.lease.resources[i];
    FindAt(s.lease.resources, i);
    ReleaseAccepted(s.lease, i);
    var saved := s.(lease := WithResource(s.lease, r.(state := Released)));
    UndisturbedStep(s, SaveReleased(r.kind), saved);
    RestartKeeps(saved);
  }

  lemma RecordKeeps(s: Sys, i: nat)
    requires Undisturbed(s) && s.lease.state.Cleaning? && i < |s.lease.resources|
    requires s.lease.resources[i].kind in s.gone
    ensures Undisturbed(AtRest(RowReleased(s, s.lease.resources[i].kind).(
              lease := WithResource(s.lease, s.lease.resources[i].(state := Released)))))
  {
    var k := s.lease.resources[i].kind;
    var recorded := RowReleased(s, k);
    if k in s.registry {
      UndisturbedStep(s, RecordReleased(k), recorded);
    }
    SaveKeeps(recorded, i);
  }

  /** What a release that is not held up makes of the stores. */
  function Released_(s: Sys, i: nat): Sys
    requires i < |s.lease.resources|
  {
    var r := s.lease.resources[i];
    s.(lease := s.lease.(resources := s.lease.resources[i := r.(state := Released)]),
       live := s.live - {r.kind},
       registry := RowReleased(s, r.kind).registry)
  }

  lemma ReleaseOneShape(s: Sys, i: nat)
    requires Valid(s.lease) && s.lease.state.Cleaning? && i < |s.lease.resources|
    requires !VerifyOwned(s, s.lease.resources[i]).Refused? && !Blocked(s.live, s.lease.resources[i].kind)
    ensures VerifyOwned(s, s.lease.resources[i]).Absent? ==>
      VerifyOwned(s, s.lease.resources[i]).recorded == (s.lease.resources[i].kind in s.registry)
    ensures ReleaseOne(s, s.lease.resources[i]) == (Released_(s, i), [])
  {
    ReleaseAccepted(s.lease, i);
    assert s.lease.resources[i].kind !in s.live ==> s.live - {s.lease.resources[i].kind} == s.live;
  }

  lemma SeenKeeps(s: Sys, r: Resource)
    requires Undisturbed(s) && s.lease.state.Cleaning? && !VerifyOwned(s, r).Refused?
    requires Labelled(s.lease, r) && !Blocked(s.live, r.kind)
    ensures Undisturbed(s.(live := s.live - {r.kind}, gone := s.gone + {r.kind}))
  {
    hide Consistent, Traceable, Valid;
    var seen := s.(live := s.live - {r.kind}, gone := s.gone + {r.kind});
    if VerifyOwned(s, r).Owned? {
      UndisturbedStep(s, Drop(r), seen);
    } else {
      assert s.live - {r.kind} == s.live;
      UndisturbedStep(s, ObserveAbsent(r), seen);
    }
  }

  /** One release is the actions verify-and-drop, record and save, and the process may stop after them. */
  lemma ReleaseOneKeeps(s: Sys, i: nat)
    requires Undisturbed(s) && Stopped(s) && s.lease.state.Cleaning? && i < |s.lease.resources|
    requires !VerifyOwned(s, s.lease.resources[i]).Refused? && !Blocked(s.live, s.lease.resources[i].kind)
    ensures Undisturbed(Released_(s, i))
  {
    var r := s.lease.resources[i];
    assert Labelled(s.lease, r);
    SeenKeeps(s, r);
    RecordKeeps(s.(live := s.live - {r.kind}, gone := s.gone + {r.kind}), i);
    ReleaseAccepted(s.lease, i);
  }

  /** Resources below n are released, the rest and an unmarked database are as they were. */
  function ReleasedBelow(s: Sys, n: nat): (out: seq<Resource>)
    requires n <= |s.lease.resources|
    ensures |out| == |s.lease.resources|
    ensures forall j | 0 <= j < |out| ::
      out[j] == if j < n && !Stuck(s, s.lease.resources[j]) then s.lease.resources[j].(state := Released)
                else s.lease.resources[j]
  {
    seq(|s.lease.resources|, j requires 0 <= j < |s.lease.resources| =>
      if j < n && !Stuck(s, s.lease.resources[j]) then s.lease.resources[j].(state := Released)
      else s.lease.resources[j])
  }

  ghost predicate StuckBelow(s: Sys, n: nat)
    requires n <= |s.lease.resources|
  {
    exists j :: 0 <= j < n && Stuck(s, s.lease.resources[j])
  }

  /** The registry keeps its rows, and at most their state became released. */
  ghost predicate RowsOnlyReleased(s: Sys, t: Sys) {
    && t.registry.Keys == s.registry.Keys
    && forall k | k in s.registry :: t.registry[k].(state := Released) == s.registry[k].(state := Released)
  }

  ghost predicate SettledBelow(s: Sys, n: nat, t: Sys, failures: seq<Failure>)
    requires n <= |s.lease.resources|
  {
    && t == s.(lease := s.lease.(resources := ReleasedBelow(s, n)), live := t.live, registry := t.registry)
    && UnmarkedDatabase(t) == UnmarkedDatabase(s)
    && (UnmarkedDatabase(s) ==> t.live[Database] == s.live[Database])
    && RowsOnlyReleased(s, t)
    && failures == (if StuckBelow(s, n) then [Failure(Database, Ownership)] else [])
  }

  lemma StuckIsOne(s: Sys, n: nat)
    requires DistinctKinds(s.lease.resources) && 0 < n <= |s.lease.resources|
    ensures StuckBelow(s, n) == (StuckBelow(s, n - 1) || Stuck(s, s.lease.resources[n - 1]))
    ensures !(StuckBelow(s, n - 1) && Stuck(s, s.lease.resources[n - 1]))
  {
  }

  lemma SettledAfterStuck(s: Sys, n: nat, t: Sys, rest: seq<Failure>)
    requires DistinctKinds(s.lease.resources) && 0 < n <= |s.lease.resources|
    requires Stuck(s, s.lease.resources[n - 1]) && SettledBelow(s, n - 1, t, rest)
    ensures SettledBelow(s, n, t, [Failure(Database, Ownership)] + rest)
  {
    StuckIsOne(s, n);
    assert ReleasedBelow(s, n - 1) == ReleasedBelow(s, n);
  }

  lemma SameStuckBelow(s1: Sys, s: Sys, n: nat)
    requires n <= |s.lease.resources| && n <= |s1.lease.resources| && UnmarkedDatabase(s1) == UnmarkedDatabase(s)
    requires forall j | 0 <= j < n :: s1.lease.resources[j] == s.lease.resources[j]
    ensures StuckBelow(s1, n) == StuckBelow(s, n)
  {
    if StuckBelow(s, n) {
      var j :| 0 <= j < n && Stuck(s, s.lease.resources[j]);
      assert Stuck(s1, s1.lease.resources[j]);
    }
  }

  lemma UnmarkedAfterRelease(s: Sys, i: nat)
    requires i < |s.lease.resources| && !Stuck(s, s.lease.resources[i])
    ensures UnmarkedDatabase(Released_(s, i)) == UnmarkedDatabase(s)
    ensures UnmarkedDatabase(s) ==> Released_(s, i).live[Database] == s.live[Database]
    ensures forall t | RowsOnlyReleased(Released_(s, i), t) :: RowsOnlyReleased(s, t)
  {
    var s1 := Released_(s, i);
    forall t | RowsOnlyReleased(s1, t)
      ensures RowsOnlyReleased(s, t)
    {
      assert s1.registry.Keys == s.registry.Keys;
      forall k | k in s.registry
        ensures t.registry[k].(state := Released) == s.registry[k].(state := Released)
      {
        assert k in s1.registry;
      }
    }
  }

  lemma ReleasedBelowAfterRelease(s: Sys, n: nat)
    requires 0 < n <= |s.lease.resources| && !Stuck(s, s.lease.resources[n - 1])
    ensures ReleasedBelow(Released_(s, n - 1), n - 1) == ReleasedBelow(s, n)
  {
    UnmarkedAfterRelease(s, n - 1);
  }

  lemma SettledAfterRelease(s: Sys, n: nat, t: Sys, rest: seq<Failure>)
    requires DistinctKinds(s.lease.resources) && 0 < n <= |s.lease.resources|
    requires !Stuck(s, s.lease.resources[n - 1]) && SettledBelow(Released_(s, n - 1), n - 1, t, rest)
    ensures SettledBelow(s, n, t, rest)
  {
    hide RowsOnlyReleased, ReleasedBelow, StuckBelow, DistinctKinds;
    StuckIsOne(s, n);
    UnmarkedAfterRelease(s, n - 1);
    SameStuckBelow(Released_(s, n - 1), s, n - 1);
    ReleasedBelowAfterRelease(s, n);
  }

  lemma OneVerdict(s: Sys, i: nat)
    requires Undisturbed(s) && i < |s.lease.resources|
    ensures VerifyOwned(s, s.lease.resources[i]).Refused? <==> Stuck(s, s.lease.resources[i])
  {
    var r := s.lease.resources[i];
    assert ValidResource(r) && r.kind in Kinds(s.lease.resources);
    FindAt(s.lease.resources, i);
    VerdictOf(s, r);
  }

  lemma DownPastStuck(s: Sys, n: nat)
    requires DistinctKinds(s.lease.resources) && 0 < n <= |s.lease.resources|
    requires Stuck(s, s.lease.resources[n - 1]) && VerifyOwned(s, s.lease.resources[n - 1]).Refused?
    requires SettledBelow(s, n - 1, ReleaseDown(s, n - 1).0, ReleaseDown(s, n - 1).1)
    ensures ReleaseDown(s, n).0 == ReleaseDown(s, n - 1).0
    ensures SettledBelow(s, n, ReleaseDown(s, n).0, ReleaseDown(s, n).1)
  {
    SettledAfterStuck(s, n, ReleaseDown(s, n - 1).0, ReleaseDown(s, n - 1).1);
  }

  lemma DownPastReleased(s: Sys, n: nat)
    requires DistinctKinds(s.lease.resources) && 0 < n <= |s.lease.resources|
    requires !Stuck(s, s.lease.resources[n - 1])
    requires ReleaseOne(s, s.lease.resources[n - 1]) == (Released_(s, n - 1), [])
    requires var s1 := Released_(s, n - 1);
      SettledBelow(s1, n - 1, ReleaseDown(s1, n - 1).0, ReleaseDown(s1, n - 1).1)
    ensures ReleaseDown(s, n).0 == ReleaseDown(Released_(s, n - 1), n - 1).0
    ensures SettledBelow(s, n, ReleaseDown(s, n).0, ReleaseDown(s, n).1)
  {
    var s1 := Released_(s, n - 1);
    SettledAfterRelease(s, n, ReleaseDown(s1, n - 1).0, ReleaseDown(s1, n - 1).1);
  }

  lemma NextRelease(s: Sys, i: nat)
    requires Undisturbed(s) && Stopped(s) && s.lease.state.Cleaning? && i < |s.lease.resources|
    requires !Blocked(s.live, s.lease.resources[i].kind)
    ensures DistinctKinds(s.lease.resources)
    ensures Stuck(s, s.lease.resources[i]) ==> VerifyOwned(s, s.lease.resources[i]).Refused?
    ensures !Stuck(s, s.lease.resources[i]) ==>
      ReleaseOne(s, s.lease.resources[i]) == (Released_(s, i), []) && Undisturbed(Released_(s, i))
  {
    OneVerdict(s, i);
    if !Stuck(s, s.lease.resources[i]) {
      ReleaseOneShape(s, i);
      ReleaseOneKeeps(s, i);
    }
  }

  /** If a live database depends on the role, its turn is still to come. */
  ghost predicate DatabaseAhead(s: Sys, n: nat)
    requires n <= |s.lease.resources|
  {
    Blocked(s.live, Role) ==> exists j :: 0 <= j < n && s.lease.resources[j].kind.Database?
  }

  /** Everything recorded for an undisturbed allocation is ahead at first. */
  lemma StartsAhead(s: Sys)
    requires Undisturbed(s)
    ensures DatabaseAhead(s, |s.lease.resources|)
  {
    hide Valid, Traceable;
    if Blocked(s.live, Role) {
      assert Find(s.lease.resources, Database).Some?;
    }
  }

  /** The database comes before the role, so nothing blocks the resource whose turn it is. */
  lemma NotBlocked(s: Sys, i: nat)
    requires Undisturbed(s) && i < |s.lease.resources| && DatabaseAhead(s, i + 1)
    ensures !Blocked(s.live, s.lease.resources[i].kind)
  {
    hide Valid, Traceable, Explained;
    var rs := s.lease.resources;
    if Blocked(s.live, rs[i].kind) {
      var j :| 0 <= j < i + 1 && rs[j].kind.Database?;
      assert RoleBelow(rs, j);
      var k :| 0 <= k < j && rs[k].kind.Role?;
      DistinctIfValid(s.lease);
    }
  }

  lemma DistinctIfValid(l: Record)
    requires Valid(l)
    ensures DistinctKinds(l.resources)
  {
  }

  /** An unmarked database has no dependents yet. */
  lemma AheadAfterStuck(s: Sys, i: nat)
    requires Undisturbed(s) && i < |s.lease.resources| && DatabaseAhead(s, i + 1) && Stuck(s, s.lease.resources[i])
    ensures DatabaseAhead(s, i)
  {
    hide Valid;
  }

  lemma AheadAfterRelease(s: Sys, i: nat)
    requires i < |s.lease.resources| && DatabaseAhead(s, i + 1)
    ensures DatabaseAhead(Released_(s, i), i)
  {
    var t := Released_(s, i);
    if Blocked(t.live, Role) {
      var j :| 0 <= j < i + 1 && s.lease.resources[j].kind.Database?;
      assert j < i && t.lease.resources[j].kind.Database?;
    }
  }

  lemma {:induction false} ReleaseDownSettles(s: Sys, n: nat)
    requires Undisturbed(s) && Stopped(s) && s.lease.state.Cleaning? && n <= |s.lease.resources|
    requires DatabaseAhead(s, n)
    ensures SettledBelow(s, n, ReleaseDown(s, n).0, ReleaseDown(s, n).1)
    ensures Undisturbed(ReleaseDown(s, n).0)
    decreases n
  {
    hide Valid, Consistent, Traceable, VerifyOwned, ReleaseOne, Blocked, DatabaseAhead;
    if n == 0 {
      assert ReleasedBelow(s, 0) == s.lease.resources;
    } else {
      NotBlocked(s, n - 1);
      NextRelease(s, n - 1);
      if Stuck(s, s.lease.resources[n - 1]) {
        AheadAfterStuck(s, n - 1);
        ReleaseDownSettles(s, n - 1);
        DownPastStuck(s, n);
      } else {
        AheadAfterRelease(s, n - 1);
        ReleaseDownSettles(Released_(s, n - 1), n - 1);
        DownPastReleased(s, n);
      }
    }
  }

  /**
   The reverse order is needed: while a live database depends on the role, releasing the
   role first fails, and releasing the database first lets both go.
   */
  lemma OrderMatters(s: Sys, i: nat, j: nat)
    requires Undisturbed(s) && Stopped(s) && s.lease.state.Cleaning? && i < |s.lease.resources| && j < |s.lease.resources|
    requires s.lease.resources[i].kind.Role? && s.lease.resources[j].kind.Database? && Blocked(s.live, Role)
    ensures ReleaseOne(s, s.lease.resources[i]) == (s, [Failure(Role, Remove)])
    ensures ReleaseOne(s, s.lease.resources[j]) == (Released_(s, j), [])
    ensures ReleaseOne(Released_(s, j), Released_(s, j).lease.resources[i]) == (Released_(Released_(s, j), i), [])
  {
    hide Valid, Traceable, Explained, ReleaseDown;
    OneVerdict(s, i);
    AtTheRole(s, i);
    BlockedIsMarked(s);
    NextRelease(s, j);
    NextRelease(Released_(s, j), i);
  }

  lemma AtTheRole(s: Sys, i: nat)
    requires i < |s.lease.resources| && s.lease.resources[i].kind.Role? && Blocked(s.live, Role)
    requires !VerifyOwned(s, s.lease.resources[i]).Refused?
    ensures ReleaseOne(s, s.lease.resources[i]) == (s, [Failure(Role, Remove)])
  {}

  lemma BlockedIsMarked(s: Sys)
    requires Undisturbed(s) && Blocked(s.live, Role)
    ensures !UnmarkedDatabase(s)
  {
    hide Valid;
  }

  lemma BeginKeeps(s: Sys)
    requires Undisturbed(s) && Stopped(s) && !s.lease.state.Cleaned?
    ensures Accepts(s.lease, Cleaning_(s.lease))
    ensures Undisturbed(s.(lease := Cleaning_(s.lease)))
  {
    hide Consistent, Traceable;
    UndisturbedStep(s, BeginCleanup, s.(lease := Cleaning_(s.lease)));
  }

  lemma CredentialKeeps(s: Sys)
    requires Undisturbed(s) && s.lease.state.Cleaning?
    ensures Undisturbed(s.(credential := false))
  {
    UndisturbedStep(s, RemoveCredential, s.(credential := false));
  }

  lemma FinishKeeps(s: Sys, failures: seq<Failure>)
    requires Undisturbed(s) && s.lease.state.Cleaning? && !s.credential
    requires if failures == [] then AllInState(s.lease.resources, Released)
             else failures == [Failure(Database, Ownership)] && Database in Kinds(s.lease.resources)
    ensures Undisturbed(Finish(s, failures))
    ensures Finish(s, failures) ==
      s.(lease := if failures == [] then Cleaned_(s.lease) else Failed_(s.lease, failures))
  {
    hide Consistent, Traceable;
    if failures == [] {
      assert Accepts(s.lease, Cleaned_(s.lease));
      UndisturbedStep(s, FinishCleaned, Finish(s, failures));
    } else {
      assert Accepts(s.lease, Failed_(s.lease, failures));
      UndisturbedStep(s, FinishFailed(failures), Finish(s, failures));
    }
  }

  lemma StuckHasResource(s: Sys)
    requires Consistent(s) && UnmarkedDatabase(s)
    ensures Database in Kinds(s.lease.resources)
    ensures StuckBelow(s, |s.lease.resources|)
  {
    assert Find(s.lease.resources, Database).Some?;
    var i :| 0 <= i < |s.lease.resources| && s.lease.resources[i].kind == Database;
    assert Stuck(s, s.lease.resources[i]);
  }

  /** What one undisturbed cleanup amounts to. */
  lemma CleanupShape(s: Sys)
    requires Undisturbed(s) && Stopped(s) && !s.lease.state.Cleaned?
    ensures Undisturbed(Cleanup(s)) && Stopped(Cleanup(s)) && !Cleanup(s).credential
    ensures Cleanup(s).lease ==
      var l := s.lease.(resources := ReleasedBelow(s, |s.lease.resources|));
      if UnmarkedDatabase(s) then Failed_(l, [Failure(Database, Ownership)]) else Cleaned_(l)
    ensures UnmarkedDatabase(Cleanup(s)) == UnmarkedDatabase(s)
    ensures UnmarkedDatabase(s) ==> Cleanup(s).live[Database] == s.live[Database]
    ensures RowsOnlyReleased(s, Cleanup(s))
    ensures Cleanup(s) == s.(lease := Cleanup(s).lease, live := Cleanup(s).live,
                             registry := Cleanup(s).registry, credential := false)
  {
    hide Valid, Consistent, Traceable, Accepts, ReleaseDown, Finish;
    BeginKeeps(s);
    var begun := s.(lease := Cleaning_(s.lease));
    var n := |s.lease.resources|;
    StartsAhead(begun);
    ReleaseDownSettles(begun, n);
    var (released, failures) := ReleaseDown(begun, n);
    assert ReleasedBelow(begun, n) == ReleasedBelow(s, n);
    if UnmarkedDatabase(s) {
      StuckHasResource(begun);
      StuckHasResource(released);
    }
    CredentialKeeps(released);
    FinishKeeps(released.(credential := false), failures);
  }

  /** A kind whose resource is released or absent leaves nothing behind. */
  lemma NothingLeft(s: Sys, k: Kind)
    requires Explained(ViewOf(s, k))
    requires Find(s.lease.resources, k).Some? ==> Find(s.lease.resources, k).value.state.Released?
    ensures k !in s.live
    ensures k in s.registry ==> s.registry[k].state.Released?
  {
  }

  ghost predicate FullyCleaned(t: Sys) {
    && t.lease.state.Cleaned?
    && t.live == map[]
    && !t.credential
    && t.lease.credentialRef.NoCredential?
    && AllInState(t.lease.resources, Released)
    && forall k | k in t.registry :: t.registry[k].state.Released?
  }

  lemma CleanedMeansNothingLeft(t: Sys)
    requires Undisturbed(t) && t.lease.state.Cleaned?
    ensures FullyCleaned(t)
  {
    NothingLeft(t, Role);
    NothingLeft(t, Database);
    assert t.live.Keys == {};
  }

  /** Re-verifying a cleaned allocation finds every resource absent. */
  lemma CleanedVerifies(t: Sys, i: nat)
    requires Undisturbed(t) && t.lease.state.Cleaned? && i < |t.lease.resources|
    ensures VerifyOwned(t, t.lease.resources[i]).Absent?
  {
    hide Valid, Consistent, Traceable;
    CleanedMeansNothingLeft(t);
    OneVerdict(t, i);
  }

  /** The database stays, everything else is gone, and the lease says why. */
  ghost predicate HeldByUnmarked(s: Sys, t: Sys)
    requires Database in s.live
  {
    && t.lease.state.CleanupFailed?
    && t.lease.cleanupErrors == [Failure(Database, Ownership)]
    && t.live == map[Database := s.live[Database]]
    && !t.credential
    && forall r | r in t.lease.resources :: r.state.Released? || r.kind.Database?
  }

  lemma HeldMeansRoleGone(s: Sys, t: Sys)
    requires Undisturbed(t) && UnmarkedDatabase(t) && Database in s.live && t.live[Database] == s.live[Database]
    requires forall r | r in t.lease.resources :: r.state.Released? || r.kind.Database?
    ensures t.live == map[Database := s.live[Database]]
  {
    NothingLeft(t, Role);
    assert t.live.Keys == {Database};
  }

  /**
   One undisturbed cleanup of what an undisturbed run left behind removes everything,
   unless a database was created and never marked: that one it refuses, reports as an
   ownership failure and leaves alone. Every record it writes is valid.
   */
  lemma CleanupRecovers(s: Sys)
    requires Undisturbed(s) && Stopped(s)
    ensures Undisturbed(Cleanup(s)) && Valid(Cleanup(s).lease)
    ensures if UnmarkedDatabase(s) then HeldByUnmarked(s, Cleanup(s)) else FullyCleaned(Cleanup(s))
  {
    hide Valid, Consistent, Traceable;
    if s.lease.state.Cleaned? {
      CleanedMeansNothingLeft(s);
    } else {
      CleanupShape(s);
      if UnmarkedDatabase(s) {
        HeldMeansRoleGone(s, Cleanup(s));
      } else {
        CleanedMeansNothingLeft(Cleanup(s));
      }
    }
  }

  /** A second cleanup finds nothing to change, whether the first succeeded or was held up. */
  lemma CleanupIsIdempotent(s: Sys)
    requires Undisturbed(s) && Stopped(s)
    ensures Cleanup(Cleanup(s)) == Cleanup(s)
  {
    CleanupRecovers(s);
    var t := Cleanup(s);
    if !t.lease.state.Cleaned? {
      CleanupShape(s);
      SecondCleanup(t, s);
    }
  }

  lemma SecondCleanup(t: Sys, s: Sys)
    requires Undisturbed(t) && Stopped(t) && UnmarkedDatabase(t) && Database in s.live && HeldByUnmarked(s, t)
    ensures Cleanup(t) == t
  {
    hide Valid, Traceable, Cleanup;
    CleanupShape(t);
    CleanupRecovers(t);
    var u := Cleanup(t);
    var n := |t.lease.resources|;
    assert ReleasedBelow(t, n) == t.lease.resources by {
      forall j | 0 <= j < n
        ensures ReleasedBelow(t, n)[j] == t.lease.resources[j]
      {
        assert t.lease.resources[j] in t.lease.resources;
      }
    }
    NothingLeft(t, Role);
    NothingLeft(u, Role);
    assert u.registry == t.registry by {
      forall k | k in t.registry
        ensures u.registry[k] == t.registry[k]
      {
        assert k.Role? || k.Database?;
      }
    }
  }

  /** Wherever a run stopped in which others at most dropped objects, the next cleanup recovers, and a further one changes nothing. */
  lemma RecoversFromEveryCrash(run: seq<Sys>, acts: seq<Action>, i: nat)
    requires QuietRun(run, acts) && i < |run|
    ensures var s := AtRest(run[i]);
      && (if UnmarkedDatabase(s) then HeldByUnmarked(s, Cleanup(s)) else FullyCleaned(Cleanup(s)))
      && Cleanup(Cleanup(s)) == Cleanup(s)
      && Valid(Cleanup(s).lease)
      && (UnmarkedDatabase(s) ==> s.live[Database].dependent == 0)
  {
    hide Next, Valid, Undisturbed, Cleanup, HeldByUnmarked, FullyCleaned;
    QuietRunsStayExplained(run, acts, i);
    RestartKeeps(run[i]);
    CleanupRecovers(AtRest(run[i]));
    CleanupIsIdempotent(AtRest(run[i]));
    NoDependentsYet(AtRest(run[i]));
  }

  lemma NoDependentsYet(s: Sys)
    requires Undisturbed(s)
    ensures UnmarkedDatabase(s) ==> s.live[Database].dependent == 0
  {
    hide Valid, Traceable;
  }
}
