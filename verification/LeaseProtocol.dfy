/**
 The lease protocol as a transition system over its three stores: the lease
 file, the registry rows of this allocation, and the live role and database that
 carry its name. Each action is one durable change; a process may end between
 any two of them, and foreign sessions may create, drop and alter objects at any
 point. The assumptions are that object identifiers are never reused, that
 verifying and dropping are one action (cooperating processes hold the
 allocation's advisory lock), and that nothing but the allocation's own database
 depends on its role.
 */
module LeaseProtocol {
  import opened Options
  import opened LeaseRecords

  type Ident = (Kind, nat)

  const NO_COMMENT := Text("")

  datatype Row = Row(name: Label, marker: Label, state: ResourceState, adminOid: nat, oid: nat)

  /** `dependent` is the role that has privileges on or objects in a database; 0 is none. */
  datatype Live = Live(oid: nat, owner: nat, marker: Label, restricted: bool, dependent: nat)

  /**
   `lease` to `credential` are durable. `used` and `mine` are the identifiers ever
   taken and those this allocation created. `awaitingMark` and `gone` are what the
   running process remembers: that it has just created its database, and which
   kinds it has seen absent or dropped itself.
   */
  datatype Sys = Sys(
    admin: nat,
    lease: Record,
    registry: map<Kind, Row>,
    live: map<Kind, Live>,
    credential: bool,
    used: set<Ident>,
    mine: set<Ident>,
    awaitingMark: bool,
    gone: set<Kind>)

  // ---------- resources by kind ----------

  function Find(rs: seq<Resource>, k: Kind): (r: Option<Resource>)
    ensures r.Some? <==> k in Kinds(rs)
    ensures r.Some? ==> r.value in rs && r.value.kind == k
  {
    if rs == [] then None
    else if rs[0].kind == k then assert rs[0].kind in Kinds(rs); Some(rs[0])
    else
      assert k in Kinds(rs) <==> k in Kinds(rs[1..]) by {
        assert rs == [rs[0]] + rs[1..];
        if k in Kinds(rs) {
          var i :| 0 <= i < |rs| && rs[i].kind == k;
          assert rs[1..][i - 1].kind == k;
        }
      }
      Find(rs[1..], k)
  }

  function Replace(rs: seq<Resource>, r: Resource): (out: seq<Resource>)
    ensures |out| == |rs|
    ensures forall i | 0 <= i < |rs| :: out[i] == if rs[i].kind == r.kind then r else rs[i]
  {
    seq(|rs|, i requires 0 <= i < |rs| => if rs[i].kind == r.kind then r else rs[i])
  }

  lemma {:induction false} FindAt(rs: seq<Resource>, i: nat)
    requires i < |rs| && DistinctKinds(rs)
    ensures Find(rs, rs[i].kind) == Some(rs[i])
  {
    if i > 0 {
      assert rs[0].kind != rs[i].kind;
      FindAt(rs[1..], i - 1);
    }
  }

  lemma {:induction false} FindReplaced(rs: seq<Resource>, r: Resource, k: Kind)
    ensures Find(Replace(rs, r), k) ==
      if k == r.kind && Find(rs, k).Some? then Some(r) else Find(rs, k)
  {
    if rs != [] {
      assert Replace(rs, r)[1..] == Replace(rs[1..], r);
      FindReplaced(rs[1..], r, k);
    }
  }

  lemma {:induction false} FindAppended(rs: seq<Resource>, r: Resource, k: Kind)
    ensures Find(rs + [r], k) ==
      if Find(rs, k).Some? then Find(rs, k) else if k == r.kind then Some(r) else None
  {
    if rs != [] {
      assert (rs + [r])[1..] == rs[1..] + [r];
      FindAppended(rs[1..], r, k);
    } else {
      assert (rs + [r])[1..] == [];
    }
  }

  // ---------- ownership verification ----------

  datatype Verdict = Refused | Absent(recorded: bool) | Owned

  /** Registry row and lease resource must agree with each other and with the live object. */
  function VerifyOwned(s: Sys, r: Resource): Verdict {
    if r.kind !in s.registry then
      if r.kind !in s.live then Absent(false) else Refused
    else
      var row := s.registry[r.kind];
      if row.name != s.lease.ResourceName() || row.marker != s.lease.Marker() then Refused
      else if row.adminOid != s.admin then Refused
      else if r.oid != 0 && r.oid != row.oid then Refused
      else if r.kind !in s.live then Absent(true)
      else if LiveOwned(s.admin, row, r, s.live[r.kind]) then Owned
      else Refused
  }

  predicate LiveOwned(admin: nat, row: Row, r: Resource, live: Live) {
    && !row.state.Released?
    && row.oid != 0
    && live.oid == row.oid
    && live.marker == r.marker
    && if r.kind.Database? then live.owner == admin else live.restricted
  }

  /** The server refuses to drop a role something in a live database depends on. */
  predicate Blocked(live: map<Kind, Live>, k: Kind) {
    k.Role? && Role in live && Database in live && live[Database].dependent == live[Role].oid
  }

  /** The resource carries the allocation's name and mark. */
  predicate Labelled(l: Record, r: Resource) { r.name == l.ResourceName() && r.marker == l.Marker() }

  // ---------- actions ----------

  datatype Action =
    | PlanResource(kind: Kind)
    | CreateRole(oid: nat)
    | RegisterPlan
    | CreateDatabase(oid: nat)
    | MarkDatabase
    | RecordAcquired(kind: Kind)
    | ReferCredential
    | WriteCredential
    | EnterReady
    | EnterRunning
    | BeginCleanup
    | ObserveAbsent(resource: Resource)
    | Drop(resource: Resource)
    | RecordReleased(kind: Kind)
    | SaveReleased(kind: Kind)
    | RemoveCredential
    | FinishCleaned
    | FinishFailed(failures: seq<Failure>)
    | Restart
    | Foreign

  function PlannedResource(l: Record, k: Kind): Resource {
    Resource(k, l.ResourceName(), l.Marker(), Planned, 0, "", NoImage)
  }

  function WithPlanned(l: Record, k: Kind): Record {
    l.(resources := l.resources + [PlannedResource(l, k)])
  }

  function AcquiredResource(l: Record, k: Kind, oid: nat): Resource {
    PlannedResource(l, k).(state := Acquired, oid := oid)
  }

  function WithResource(l: Record, r: Resource): Record {
    l.(resources := Replace(l.resources, r))
  }

  function WithReleased(l: Record, k: Kind): Record
    requires Find(l.resources, k).Some?
  {
    WithResource(l, Find(l.resources, k).value.(state := Released))
  }

  function Cleaning_(l: Record): Record { l.(state := Cleaning, cleanupErrors := []) }

  function Cleaned_(l: Record): Record { l.(state := Cleaned, cleanupErrors := [], credentialRef := NoCredential) }

  function Failed_(l: Record, failures: seq<Failure>): Record {
    l.(state := CleanupFailed, cleanupErrors := failures)
  }

  predicate IsPlanned(l: Record, k: Kind) {
    Find(l.resources, k) == Some(PlannedResource(l, k))
  }

  /** The lease file accepts `next`, and nothing else changes. */
  predicate Saves(s: Sys, next: Record, t: Sys) {
    Accepts(s.lease, next) && t == s.(lease := next)
  }

  function NewRow(s: Sys, state: ResourceState, oid: nat): Row {
    Row(s.lease.ResourceName(), s.lease.Marker(), state, s.admin, oid)
  }

  function TakenBy(live: map<Kind, Live>): set<Ident> {
    set k | k in live :: (k, live[k].oid)
  }

  /** Other sessions: any change to the named objects that gives created objects unused identifiers. */
  predicate ForeignMove(s: Sys, t: Sys) {
    && t == s.(live := t.live, used := t.used)
    && s.used <= t.used
    && TakenBy(t.live) <= t.used
    && (forall k | k in t.live :: t.live[k].oid != 0)
    && (forall k | k in t.live ::
          (k in s.live && s.live[k].oid == t.live[k].oid) || (k, t.live[k].oid) !in s.used)
  }

  ghost predicate Next(s: Sys, a: Action, t: Sys) {
    match a
    case PlanResource(k) =>
      && (k.Role? || (k.Database? && Role in Kinds(s.lease.resources)))
      && s.lease.state.Allocating? && Saves(s, WithPlanned(s.lease, k), t)
    case CreateRole(oid) =>
      && s.lease.state.Allocating? && IsPlanned(s.lease, Role)
      && Role !in s.registry && Role !in s.live
      && oid != 0 && (Role, oid) !in s.used
      && t == s.(registry := s.registry[Role := NewRow(s, Acquired, oid)],
                 live := s.live[Role := Live(oid, 0, s.lease.Marker(), true, 0)],
                 used := s.used + {(Role, oid)}, mine := s.mine + {(Role, oid)})
    case RegisterPlan =>
      && s.lease.state.Allocating? && IsPlanned(s.lease, Database)
      && Database !in s.registry
      && t == s.(registry := s.registry[Database := NewRow(s, Planned, 0)])
    case CreateDatabase(oid) =>
      && s.lease.state.Allocating? && IsPlanned(s.lease, Database)
      && Database in s.registry && s.registry[Database] == NewRow(s, Planned, 0)
      && Database !in s.live
      && oid != 0 && (Database, oid) !in s.used
      && t == s.(live := s.live[Database := Live(oid, s.admin, NO_COMMENT, false, 0)],
                 used := s.used + {(Database, oid)}, mine := s.mine + {(Database, oid)},
                 awaitingMark := true)
    case MarkDatabase =>
      && s.awaitingMark
      && s.lease.state.Allocating? && IsPlanned(s.lease, Database)
      && Database in s.registry && s.registry[Database].state.Planned?
      && Database in s.live && s.live[Database].owner == s.admin && Role in s.live
      && var live := s.live[Database];
         t == s.(registry := s.registry[Database := s.registry[Database].(state := Acquired, oid := live.oid)],
                 live := s.live[Database := live.(marker := s.lease.Marker(), dependent := s.live[Role].oid)],
                 awaitingMark := false)
    case RecordAcquired(k) =>
      && (k.Role? || k.Database?) && s.lease.state.Allocating? && IsPlanned(s.lease, k)
      && k in s.registry && s.registry[k].state.Acquired?
      && Saves(s, WithResource(s.lease, AcquiredResource(s.lease, k, s.registry[k].oid)), t)
    case ReferCredential =>
      s.lease.state.Allocating? && Saves(s, s.lease.(credentialRef := ConnectionFile), t)
    case WriteCredential =>
      s.lease.state.Allocating? && s.lease.credentialRef.ConnectionFile? && t == s.(credential := true)
    case EnterReady => Saves(s, s.lease.(state := Ready), t)
    case EnterRunning => Saves(s, s.lease.(state := Running), t)
    case BeginCleanup =>
      Accepts(s.lease, Cleaning_(s.lease)) && t == s.(lease := Cleaning_(s.lease), awaitingMark := false, gone := {})
    case ObserveAbsent(r) =>
      && s.lease.state.Cleaning? && Labelled(s.lease, r) && VerifyOwned(s, r).Absent?
      && t == s.(gone := s.gone + {r.kind})
    case Drop(r) =>
      && s.lease.state.Cleaning? && Labelled(s.lease, r) && VerifyOwned(s, r).Owned? && !Blocked(s.live, r.kind)
      && t == s.(live := s.live - {r.kind}, gone := s.gone + {r.kind})
    case RecordReleased(k) =>
      && s.lease.state.Cleaning? && k in s.gone && k in s.registry
      && t == s.(registry := s.registry[k := s.registry[k].(state := Released)])
    case SaveReleased(k) =>
      && s.lease.state.Cleaning? && k in s.gone
      && (k in s.registry ==> s.registry[k].state.Released?)
      && Find(s.lease.resources, k).Some?
      && Saves(s, WithReleased(s.lease, k), t)
    case RemoveCredential => s.lease.state.Cleaning? && t == s.(credential := false)
    case FinishCleaned => !s.credential && Saves(s, Cleaned_(s.lease), t)
    case FinishFailed(failures) => failures != [] && Saves(s, Failed_(s.lease, failures), t)
    case Restart => t == s.(awaitingMark := false, gone := {})
    case Foreign => ForeignMove(s, t)
  }

  /** A fresh allocation: nothing registered, but objects of its name may exist already. */
  ghost predicate Init(s: Sys) {
    && Valid(s.lease) && s.lease.state.Allocating? && s.lease.factory.mode.ExistingAdmin?
    && s.lease.resources == [] && s.lease.credentialRef.NoCredential? && s.lease.cleanupErrors == []
    && s.registry == map[] && !s.credential && s.mine == {} && !s.awaitingMark && s.gone == {}
    && TakenBy(s.live) <= s.used
    && forall k | k in s.live :: s.live[k].oid != 0
  }

  ghost predicate StepAt(run: seq<Sys>, acts: seq<Action>, i: nat)
    requires i < |acts| && |run| == |acts| + 1
  {
    Next(run[i], acts[i], run[i + 1])
  }

  ghost predicate IsRun(run: seq<Sys>, acts: seq<Action>) {
    && |run| == |acts| + 1
    && Init(run[0])
    && forall i | 0 <= i < |acts| :: StepAt(run, acts, i)
  }

  lemma ExtendRun(run: seq<Sys>, acts: seq<Action>, a: Action, t: Sys)
    requires IsRun(run, acts) && Next(run[|run| - 1], a, t)
    ensures IsRun(run + [t], acts + [a])
  {
    var run', acts' := run + [t], acts + [a];
    forall i | 0 <= i < |acts'|
      ensures StepAt(run', acts', i)
    {
      if i < |acts| {
        assert StepAt(run, acts, i);
      }
    }
  }

  // ---------- safety of every run ----------

  ghost predicate Inv(s: Sys) {
    && Valid(s.lease)
    && s.lease.factory.mode.ExistingAdmin?
    && Traceable(s)
  }

  /** Rows carry this allocation's labels, recorded roles are its own, and every identifier in sight is taken. */
  ghost predicate Traceable(s: Sys) {
    && s.mine <= s.used
    && TakenBy(s.live) <= s.used
    && (forall k | k in s.live :: s.live[k].oid != 0)
    && (forall k | k in s.registry :: RowTraceable(s, k))
  }

  ghost predicate RowTraceable(s: Sys, k: Kind)
    requires k in s.registry
  {
    && s.registry[k].name == s.lease.ResourceName()
    && s.registry[k].marker == s.lease.Marker()
    && s.registry[k].adminOid == s.admin
    && (s.registry[k].oid != 0 ==> (k, s.registry[k].oid) in s.used && (!k.Database? ==> (k, s.registry[k].oid) in s.mine))
  }

  lemma LeaseStaysValid(s: Sys, a: Action, t: Sys)
    requires Next(s, a, t) && Valid(s.lease)
    ensures Valid(t.lease)
    ensures t.lease.factory == s.lease.factory
    ensures t.lease.ResourceName() == s.lease.ResourceName() && t.lease.Marker() == s.lease.Marker()
  {
  }

  lemma ObjectsStayTraceable(s: Sys, a: Action, t: Sys)
    requires Next(s, a, t) && Traceable(s)
    requires a.CreateRole? || a.CreateDatabase? || a.MarkDatabase? || a.Drop? || a.Foreign?
    ensures Traceable(t)
    ensures s.mine <= t.mine
  {
    hide Accepts, Find;
  }

  lemma StaysTraceable(s: Sys, a: Action, t: Sys)
    requires Next(s, a, t) && Traceable(s)
    ensures Traceable(t)
    ensures s.mine <= t.mine
  {
    hide Accepts;
    if a.CreateRole? || a.CreateDatabase? || a.MarkDatabase? || a.Drop? || a.Foreign? {
      ObjectsStayTraceable(s, a, t);
    } else {
      assert t.live == s.live && t.mine == s.mine && t.used == s.used && t.admin == s.admin;
      forall k | k in t.registry
        ensures RowTraceable(t, k)
      {
        if k in s.registry {
          assert RowTraceable(s, k);
        }
      }
    }
  }

  lemma InvStep(s: Sys, a: Action, t: Sys)
    requires Inv(s) && Next(s, a, t)
    ensures Inv(t)
    ensures s.mine <= t.mine
  {
    LeaseStaysValid(s, a, t);
    StaysTraceable(s, a, t);
  }

  ghost predicate Creates(a: Action, id: Ident) {
    (a.CreateRole? && id == (Role, a.oid)) || (a.CreateDatabase? && id == (Database, a.oid))
  }

  lemma {:induction false} RunInvariant(run: seq<Sys>, acts: seq<Action>, i: nat)
    requires IsRun(run, acts) && i < |run|
    ensures Inv(run[i])
    ensures forall id | id in run[i].mine :: exists j :: 0 <= j < i && Creates(acts[j], id)
  {
    if i > 0 {
      RunInvariant(run, acts, i - 1);
      assert StepAt(run, acts, i - 1);
      InvStep(run[i - 1], acts[i - 1], run[i]);
      forall id | id in run[i].mine
        ensures exists j :: 0 <= j < i && Creates(acts[j], id)
      {
        if id in run[i - 1].mine {
          var j :| 0 <= j < i - 1 && Creates(acts[j], id);
          assert Creates(acts[j], id);
        } else {
          assert Creates(acts[i - 1], id);
        }
      }
    }
  }

  /** Step m marked and recorded a database that this allocation had not created. */
  ghost predicate MarksForeign(run: seq<Sys>, acts: seq<Action>, m: nat, id: Ident)
    requires m < |acts| && |run| == |acts| + 1
  {
    && acts[m].MarkDatabase? && Database in run[m].live
    && id == (Database, run[m].live[Database].oid) && id !in run[m].mine
  }

  ghost predicate ForeignMark(run: seq<Sys>, acts: seq<Action>, i: nat, id: Ident)
    requires i <= |acts| && |run| == |acts| + 1
  {
    exists m :: 0 <= m < i && MarksForeign(run, acts, m, id)
  }

  /** Where the identifier of a row can come from. */
  lemma RowOrigin(s: Sys, a: Action, t: Sys, k: Kind)
    requires Next(s, a, t) && k in t.registry
    ensures
      || (k in s.registry && t.registry[k].oid == s.registry[k].oid)
      || t.registry[k].oid == 0
      || (k, t.registry[k].oid) in t.mine
      || (a.MarkDatabase? && k.Database? && Database in s.live && t.registry[k].oid == s.live[Database].oid)
  {
    hide Accepts, VerifyOwned, Find;
  }

  /** A recorded identifier is this allocation's own, or a step marked a database it had not created. */
  lemma {:induction false} RowsAreOwnOrMarked(run: seq<Sys>, acts: seq<Action>, i: nat, k: Kind)
    requires IsRun(run, acts) && i < |run| && k in run[i].registry && run[i].registry[k].oid != 0
    ensures (k, run[i].registry[k].oid) in run[i].mine || ForeignMark(run, acts, i, (k, run[i].registry[k].oid))
  {
    hide Next, Valid;
    if i > 0 {
      var s, a, t := run[i - 1], acts[i - 1], run[i];
      assert StepAt(run, acts, i - 1);
      RowOrigin(s, a, t, k);
      RunInvariant(run, acts, i - 1);
      InvStep(s, a, t);
      var id := (k, t.registry[k].oid);
      if k in s.registry && t.registry[k].oid == s.registry[k].oid {
        RowsAreOwnOrMarked(run, acts, i - 1, k);
        if ForeignMark(run, acts, i - 1, id) {
          var m :| 0 <= m < i - 1 && MarksForeign(run, acts, m, id);
        }
      } else if id !in t.mine {
        assert MarksForeign(run, acts, i - 1, id);
      }
    }
  }

  lemma UsedStep(s: Sys, a: Action, t: Sys)
    requires Next(s, a, t)
    ensures s.used <= t.used
    ensures forall id | Creates(a, id) :: id !in s.used && id in t.mine
  {
    hide Accepts, VerifyOwned, Find;
  }

  lemma {:induction false} UsedGrows(run: seq<Sys>, acts: seq<Action>, i: nat, j: nat)
    requires IsRun(run, acts) && i <= j < |run|
    ensures run[i].used <= run[j].used && run[i].mine <= run[j].mine
  {
    hide Next, Valid;
    if i < j {
      UsedGrows(run, acts, i, j - 1);
      assert StepAt(run, acts, j - 1);
      UsedStep(run[j - 1], acts[j - 1], run[j]);
      RunInvariant(run, acts, j - 1);
      InvStep(run[j - 1], acts[j - 1], run[j]);
    }
  }

  /** An identifier once marked as foreign is none this allocation ever creates. */
  lemma MarkedForeignIsNotCreated(run: seq<Sys>, acts: seq<Action>, m: nat, j: nat, id: Ident)
    requires IsRun(run, acts) && m < |acts| && j < |acts| && MarksForeign(run, acts, m, id)
    ensures !Creates(acts[j], id)
  {
    hide Next, Valid;
    if Creates(acts[j], id) {
      assert StepAt(run, acts, j);
      UsedStep(run[j], acts[j], run[j + 1]);
      RunInvariant(run, acts, m);
      assert id in TakenBy(run[m].live);
      if j < m {
        UsedGrows(run, acts, j + 1, m);
      } else {
        UsedGrows(run, acts, m, j);
      }
    }
  }

  /**
   Whatever other sessions do and wherever processes end, an object that cleanup drops
   is the one its registry row recorded, carries the allocation's mark and is not
   recorded as released. It was created by an earlier action of this very run if and
   only if no earlier step marked it while it was another session's database, so roles
   are always this allocation's own.
   */
  lemma DropsOnlyWhatItCreated(run: seq<Sys>, acts: seq<Action>, i: nat)
    requires IsRun(run, acts) && i < |acts| && acts[i].Drop?
    ensures var k := acts[i].resource.kind;
      && k in run[i].live && k in run[i].registry
      && run[i].registry[k].oid == run[i].live[k].oid != 0
      && !run[i].registry[k].state.Released?
      && run[i].live[k].marker == run[i].lease.Marker()
      && var id := (k, run[i].live[k].oid);
         && ((exists j :: 0 <= j < i && Creates(acts[j], id)) <==> !ForeignMark(run, acts, i, id))
         && (!k.Database? ==> exists j :: 0 <= j < i && Creates(acts[j], id))
  {
    hide Valid;
    RunInvariant(run, acts, i);
    assert StepAt(run, acts, i);
    var k := acts[i].resource.kind;
    var id := (k, run[i].live[k].oid);
    RowsAreOwnOrMarked(run, acts, i, k);
    if ForeignMark(run, acts, i, id) {
      var m :| 0 <= m < i && MarksForeign(run, acts, m, id);
      forall j | 0 <= j < i
        ensures !Creates(acts[j], id)
      {
        MarkedForeignIsNotCreated(run, acts, m, j, id);
      }
    }
  }

  /**
   An object that lost the mark, whose row is released, or that this allocation neither
   created nor took for its own when marking is refused in every run.
   */
  lemma ForeignObjectsRefused(run: seq<Sys>, acts: seq<Action>, i: nat, r: Resource)
    requires IsRun(run, acts) && i < |run| && r.kind in run[i].live
    requires var id := (r.kind, run[i].live[r.kind].oid);
      || (id !in run[i].mine && !ForeignMark(run, acts, i, id))
      || run[i].live[r.kind].marker != r.marker
      || (r.kind in run[i].registry && run[i].registry[r.kind].state.Released?)
    ensures VerifyOwned(run[i], r).Refused?
  {
    hide Valid, Next;
    if r.kind in run[i].registry && run[i].registry[r.kind].oid != 0 {
      RowsAreOwnOrMarked(run, acts, i, r.kind);
    }
  }

  lemma RowsStep(s: Sys, a: Action, t: Sys, k: Kind)
    requires Next(s, a, t) && k in s.registry && !s.registry[k].state.Planned?
    ensures k in t.registry && t.registry[k].oid == s.registry[k].oid
    ensures s.registry[k].state.Released? ==> t.registry[k].state.Released?
    ensures !t.registry[k].state.Planned?
  {
    hide Accepts;
  }

  lemma {:induction false} RowsSettle(run: seq<Sys>, acts: seq<Action>, i: nat, j: nat, k: Kind)
    requires IsRun(run, acts) && i <= j < |run|
    requires k in run[i].registry && !run[i].registry[k].state.Planned?
    ensures k in run[j].registry && run[j].registry[k].oid == run[i].registry[k].oid
    ensures run[i].registry[k].state.Released? ==> run[j].registry[k].state.Released?
    ensures !run[j].registry[k].state.Planned?
    decreases j - i
  {
    hide Next, Init;
    if i < j {
      RowsSettle(run, acts, i, j - 1, k);
      assert StepAt(run, acts, j - 1);
      RowsStep(run[j - 1], acts[j - 1], run[j], k);
    }
  }

  lemma GoneStep(s: Sys, a: Action, t: Sys, id: Ident)
    requires Next(s, a, t) && id in s.used && id !in TakenBy(s.live)
    ensures id in t.used && id !in TakenBy(t.live)
  {
    hide Accepts, VerifyOwned, IsPlanned, NewRow;
    forall k | k in t.live
      ensures (k, t.live[k].oid) != id
    {
      assert k in s.live ==> (k, s.live[k].oid) in TakenBy(s.live);
    }
  }

  /** Identifiers are never reused, so one that has been taken and is gone stays gone. */
  lemma {:induction false} GoneForGood(run: seq<Sys>, acts: seq<Action>, i: nat, j: nat, id: Ident)
    requires IsRun(run, acts) && i <= j < |run|
    requires id in run[i].used && id !in TakenBy(run[i].live)
    ensures id in run[j].used && id !in TakenBy(run[j].live)
    decreases j - i
  {
    hide Next, Init, TakenBy;
    if i < j {
      GoneForGood(run, acts, i, j - 1, id);
      assert StepAt(run, acts, j - 1);
      GoneStep(run[j - 1], acts[j - 1], run[j], id);
    }
  }

  /** Each kind is dropped at most once in a run, however often cleanup is restarted. */
  lemma DropsEachKindOnce(run: seq<Sys>, acts: seq<Action>, i: nat, j: nat)
    requires IsRun(run, acts) && i < j < |acts|
    requires acts[i].Drop? && acts[j].Drop?
    ensures acts[i].resource.kind != acts[j].resource.kind
  {
    var k := acts[i].resource.kind;
    if k == acts[j].resource.kind {
      assert StepAt(run, acts, i);
      DropsOnlyWhatItCreated(run, acts, i);
      DropsOnlyWhatItCreated(run, acts, j);
      RunInvariant(run, acts, i);
      var id := (k, run[i].live[k].oid);
      assert id in TakenBy(run[i].live);
      GoneForGood(run, acts, i + 1, j, id);
      if run[i].registry[k].state.Planned? {
        PlannedRowsHaveNoIdentifier(run, acts, i, k);
      }
      RowsSettle(run, acts, i, j, k);
      assert false;
    }
  }

  lemma PlannedRowsStep(s: Sys, a: Action, t: Sys, k: Kind)
    requires Next(s, a, t) && k in t.registry && t.registry[k].state.Planned?
    ensures (k in s.registry && t.registry[k] == s.registry[k]) || t.registry[k].oid == 0
  {
    hide Accepts;
  }

  lemma {:induction false} PlannedRowsHaveNoIdentifier(run: seq<Sys>, acts: seq<Action>, i: nat, k: Kind)
    requires IsRun(run, acts) && i < |run|
    requires k in run[i].registry && run[i].registry[k].state.Planned?
    ensures run[i].registry[k].oid == 0
  {
    hide Next;
    if i > 0 {
      assert StepAt(run, acts, i - 1);
      PlannedRowsStep(run[i - 1], acts[i - 1], run[i], k);
      if k in run[i - 1].registry && run[i - 1].registry[k].state.Planned? {
        PlannedRowsHaveNoIdentifier(run, acts, i - 1, k);
      }
    }
  }

  // ---------- the lease along a run ----------

  lemma LeaseStep(s: Sys, a: Action, t: Sys)
    requires Next(s, a, t)
    ensures t.lease == s.lease || Accepts(s.lease, t.lease)
  {
    hide Accepts, VerifyOwned, Find;
  }

  /** The contents the lease file goes through in the first n states of a run. */
  function Leases(run: seq<Sys>, n: nat): (h: seq<Record>)
    requires n <= |run|
    ensures n > 0 ==> h != [] && h[|h| - 1] == run[n - 1].lease
  {
    if n == 0 then []
    else
      var before, last := Leases(run, n - 1), run[n - 1].lease;
      if before != [] && before[|before| - 1] == last then before else before + [last]
  }

  lemma HistoryGrows(h: seq<Record>, next: Record)
    requires SaveHistory(h) && Accepts(h[|h| - 1], next)
    ensures SaveHistory(h + [next])
  {
    hide Valid, Accepts;
    var more := h + [next];
    forall i | 0 < i < |more|
      ensures Accepts(more[i - 1], more[i])
    {
      assert i < |h| ==> Accepts(h[i - 1], h[i]);
    }
  }

  /** They are a history of accepted saves. */
  lemma {:induction false} LeasesFormHistory(run: seq<Sys>, acts: seq<Action>, n: nat)
    requires IsRun(run, acts) && 0 < n <= |run|
    ensures SaveHistory(Leases(run, n))
  {
    hide Next, Valid, Accepts;
    if n == 1 {
      assert Leases(run, 0) == [];
    } else {
      LeasesFormHistory(run, acts, n - 1);
      assert StepAt(run, acts, n - 2);
      LeaseStep(run[n - 2], acts[n - 2], run[n - 1]);
      if run[n - 1].lease != run[n - 2].lease {
        HistoryGrows(Leases(run, n - 1), run[n - 1].lease);
      }
    }
  }

  lemma {:induction false} LeasesPrefix(run: seq<Sys>, m: nat, n: nat)
    requires m <= n <= |run|
    ensures Leases(run, m) <= Leases(run, n)
  {
    if m < n {
      LeasesPrefix(run, m, n - 1);
    }
  }

  /** Along every run what the lease settled stays settled, and a cleaned lease never changes again. */
  lemma LeaseNeverGoesBack(run: seq<Sys>, acts: seq<Action>, i: nat, j: nat)
    requires IsRun(run, acts) && i <= j < |run|
    ensures Settles(run[i].lease, run[j].lease)
    ensures run[i].lease.state.Cleaned? ==> run[j].lease == run[i].lease
  {
    hide Next, Valid, Accepts, SaveHistory, Settles, Leases;
    LeasesFormHistory(run, acts, j + 1);
    LeasesPrefix(run, i + 1, j + 1);
    HistoryNeverGoesBack(Leases(run, j + 1), |Leases(run, i + 1)| - 1, |Leases(run, j + 1)| - 1);
  }

  // ---------- a run that drops another session's database ----------

  lemma PlanAccepted(l: Record, k: Kind)
    requires Valid(l) && l.state.Allocating? && l.factory.mode.ExistingAdmin? && (k.Role? || k.Database?)
    requires |l.resources| < 3 && forall i | 0 <= i < |l.resources| :: l.resources[i].kind != k
    ensures Accepts(l, WithPlanned(l, k))
  {
    hide ValidFactory;
    var next := WithPlanned(l, k);
    assert Kinds(next.resources) == Kinds(l.resources) + {k} by {
      assert next.resources[|l.resources|].kind == k;
      assert forall i | 0 <= i < |l.resources| :: next.resources[i] == l.resources[i];
    }
  }

  lemma AcquireAccepted(l: Record, k: Kind, oid: nat)
    requires Valid(l) && l.state.Allocating? && IsPlanned(l, k) && (k.Role? || k.Database?) && oid != 0
    ensures Accepts(l, WithResource(l, AcquiredResource(l, k, oid)))
  {
    hide ValidFactory;
    var i :| 0 <= i < |l.resources| && l.resources[i] == PlannedResource(l, k);
    var next := WithResource(l, AcquiredResource(l, k, oid));
    assert next.resources == l.resources[i := AcquiredResource(l, k, oid)];
    assert Kinds(next.resources) == Kinds(l.resources) by {
      assert forall j | 0 <= j < |l.resources| :: next.resources[j].kind == l.resources[j].kind;
    }
    forall j | 0 <= j < |l.resources|
      ensures ValidResource(next.resources[j]) && ResourceAdvances(l.resources[j], next.resources[j])
    {
      assert ValidResource(l.resources[j]);
    }
  }

  lemma CleaningAccepted(l: Record)
    requires Valid(l) && l.state.Allocating?
    ensures Accepts(l, Cleaning_(l))
  {
    hide ValidFactory;
  }

  /** Planning a kind and then recording its identifier appends one acquired resource. */
  lemma PlanThenAcquire(l: Record, k: Kind, oid: nat)
    requires |l.resources| <= 1 && forall i | 0 <= i < |l.resources| :: l.resources[i].kind != k
    ensures WithResource(WithPlanned(l, k), AcquiredResource(l, k, oid)) ==
            l.(resources := l.resources + [AcquiredResource(l, k, oid)])
    ensures AcquiredResource(WithPlanned(l, k), k, oid) == AcquiredResource(l, k, oid)
  {}

  /** The lease of an allocation with its role recorded and its database planned. */
  function RoleThenPlan(l: Record, role: nat): Record {
    l.(resources := [AcquiredResource(l, Role, role), PlannedResource(l, Database)])
  }

  function IntruderActs(l: Record, m: nat): seq<Action> {
    [Foreign, PlanResource(Role), CreateRole(m + 1), RecordAcquired(Role), PlanResource(Database), RegisterPlan,
     CreateDatabase(m + 2), Foreign, MarkDatabase, BeginCleanup, Drop(PlannedResource(l, Database))]
  }

  /** No identifier above m was ever taken. */
  predicate Above(used: set<Ident>, m: nat) { forall id | id in used :: id.1 <= m }

  /**
   Another session clears the name. Provisioning then goes up to the created database,
   which another session replaces by one the administrator owns.
   */
  function IntruderRun(s: Sys, m: nat): seq<Sys> {
    var l, role := s.lease, Live(m + 1, 0, s.lease.Marker(), true, 0);
    var s0 := s.(live := map[]);
    var s1 := s0.(lease := WithPlanned(l, Role));
    var s2 := s1.(registry := map[Role := NewRow(s, Acquired, m + 1)], live := map[Role := role],
                  used := s.used + {(Role, m + 1)}, mine := {(Role, m + 1)});
    var s3 := s2.(lease := l.(resources := [AcquiredResource(l, Role, m + 1)]));
    var s4 := s3.(lease := RoleThenPlan(l, m + 1));
    var s5 := s4.(registry := s2.registry[Database := NewRow(s, Planned, 0)]);
    var s6 := s5.(live := s2.live[Database := Live(m + 2, s.admin, NO_COMMENT, false, 0)],
                  used := s2.used + {(Database, m + 2)}, mine := {(Role, m + 1), (Database, m + 2)}, awaitingMark := true);
    var s7 := s6.(live := s2.live[Database := Live(m + 3, s.admin, NO_COMMENT, false, 0)],
                  used := s6.used + {(Database, m + 3)});
    var s8 := s7.(registry := s5.registry[Database := NewRow(s, Acquired, m + 3)],
                  live := s2.live[Database := Live(m + 3, s.admin, l.Marker(), false, m + 1)], awaitingMark := false);
    var s9 := s8.(lease := Cleaning_(RoleThenPlan(l, m + 1)), gone := {});
    var s10 := s9.(live := s9.live - {Database}, gone := {Database});
    [s, s0, s1, s2, s3, s4, s5, s6, s7, s8, s9, s10]
  }

  /** The lease accepts each of the saves. */
  lemma SavesAccepted(l: Record, role: nat)
    requires Valid(l) && l.state.Allocating? && l.factory.mode.ExistingAdmin? && l.resources == [] && role != 0
    ensures var recorded := l.(resources := [AcquiredResource(l, Role, role)]);
      && Accepts(l, WithPlanned(l, Role)) && IsPlanned(WithPlanned(l, Role), Role)
      && WithResource(WithPlanned(l, Role), AcquiredResource(l, Role, role)) == recorded
      && Accepts(WithPlanned(l, Role), recorded)
      && WithPlanned(recorded, Database) == RoleThenPlan(l, role)
      && Accepts(recorded, RoleThenPlan(l, role)) && Valid(RoleThenPlan(l, role))
  {
    hide Valid;
    PlanAccepted(l, Role);
    PlanThenAcquire(l, Role, role);
    FindAppended(l.resources, PlannedResource(l, Role), Role);
    AcceptedValid(l, WithPlanned(l, Role));
    AcquireAccepted(WithPlanned(l, Role), Role, role);
    var recorded := l.(resources := [AcquiredResource(l, Role, role)]);
    assert l.resources + [AcquiredResource(l, Role, role)] == [AcquiredResource(l, Role, role)];
    AcceptedValid(WithPlanned(l, Role), recorded);
    PlanAccepted(recorded, Database);
    assert WithPlanned(recorded, Database) == RoleThenPlan(l, role);
    AcceptedValid(recorded, RoleThenPlan(l, role));
  }

  lemma AcceptedValid(l: Record, next: Record)
    requires Accepts(l, next)
    ensures Valid(next)
  {}

  ghost predicate Start(s: Sys, m: nat) { Init(s) && Above(s.used, m) }

  lemma NameCleared(s: Sys, m: nat)
    requires Start(s, m)
    ensures StepAt(IntruderRun(s, m), IntruderActs(s.lease, m), 0)
  {
    hide Valid;
    var run, acts := IntruderRun(s, m), IntruderActs(s.lease, m);
    assert Next(run[0], acts[0], run[1]);
  }

  lemma RoleCreated(s: Sys, m: nat)
    requires Start(s, m)
    requires Accepts(s.lease, WithPlanned(s.lease, Role)) && IsPlanned(WithPlanned(s.lease, Role), Role)
    ensures StepAt(IntruderRun(s, m), IntruderActs(s.lease, m), 1) && StepAt(IntruderRun(s, m), IntruderActs(s.lease, m), 2)
  {
    hide Valid, Accepts, IsPlanned;
    var run, acts := IntruderRun(s, m), IntruderActs(s.lease, m);
    assert Next(run[1], acts[1], run[2]);
    assert (Role, m + 1) !in s.used;
    assert Next(run[2], acts[2], run[3]);
  }

  lemma RoleRecorded(s: Sys, m: nat)
    requires Start(s, m)
    requires var l := s.lease;
      var recorded := l.(resources := [AcquiredResource(l, Role, m + 1)]);
      && IsPlanned(WithPlanned(l, Role), Role)
      && WithResource(WithPlanned(l, Role), AcquiredResource(l, Role, m + 1)) == recorded
      && Accepts(WithPlanned(l, Role), recorded) && Accepts(recorded, RoleThenPlan(l, m + 1))
      && WithPlanned(recorded, Database) == RoleThenPlan(l, m + 1)
    ensures StepAt(IntruderRun(s, m), IntruderActs(s.lease, m), 3) && StepAt(IntruderRun(s, m), IntruderActs(s.lease, m), 4)
  {
    hide Valid, Accepts, IsPlanned, WithResource;
    var run, acts := IntruderRun(s, m), IntruderActs(s.lease, m);
    assert Next(run[3], acts[3], run[4]);
    assert run[4].lease.resources[0].kind in Kinds(run[4].lease.resources);
    assert Next(run[4], acts[4], run[5]);
  }

  lemma DatabaseCreated(s: Sys, m: nat)
    requires Start(s, m) && IsPlanned(RoleThenPlan(s.lease, m + 1), Database)
    ensures StepAt(IntruderRun(s, m), IntruderActs(s.lease, m), 5) && StepAt(IntruderRun(s, m), IntruderActs(s.lease, m), 6)
  {
    hide Valid, Accepts, IsPlanned;
    var run, acts := IntruderRun(s, m), IntruderActs(s.lease, m);
    assert Next(run[5], acts[5], run[6]);
    assert (Database, m + 2) !in s.used;
    assert Next(run[6], acts[6], run[7]);
  }

  lemma DatabaseReplaced(s: Sys, m: nat)
    requires Start(s, m)
    ensures StepAt(IntruderRun(s, m), IntruderActs(s.lease, m), 7)
  {
    hide Valid, Accepts, IsPlanned;
    var run, acts := IntruderRun(s, m), IntruderActs(s.lease, m);
    assert (Database, m + 3) !in s.used;
    assert Next(run[7], acts[7], run[8]);
  }

  lemma ReplacementMarked(s: Sys, m: nat)
    requires Start(s, m) && IsPlanned(RoleThenPlan(s.lease, m + 1), Database)
    ensures StepAt(IntruderRun(s, m), IntruderActs(s.lease, m), 8)
  {
    hide Valid, Accepts, IsPlanned;
    var run, acts := IntruderRun(s, m), IntruderActs(s.lease, m);
    assert Next(run[8], acts[8], run[9]);
  }

  lemma ReplacementDropped(s: Sys, m: nat)
    requires Start(s, m) && IsPlanned(RoleThenPlan(s.lease, m + 1), Database)
    requires Accepts(RoleThenPlan(s.lease, m + 1), Cleaning_(RoleThenPlan(s.lease, m + 1)))
    ensures StepAt(IntruderRun(s, m), IntruderActs(s.lease, m), 9) && StepAt(IntruderRun(s, m), IntruderActs(s.lease, m), 10)
  {
    hide Valid, Accepts, IsPlanned;
    var run, acts := IntruderRun(s, m), IntruderActs(s.lease, m);
    assert Next(run[9], acts[9], run[10]);
    assert Next(run[10], acts[10], run[11]);
  }

  /**
   From every fresh allocation, whatever exists under its name and whatever identifiers
   were taken, there is a run in which cleanup drops a database it did not create.
   */
  lemma IntruderIsDropped(s: Sys) returns (m: nat)
    requires Init(s)
    ensures var run, acts := IntruderRun(s, m), IntruderActs(s.lease, m);
      && IsRun(run, acts) && acts[10].Drop? && acts[10].resource.kind.Database?
      && Database in run[10].live && (forall j | 0 <= j < |acts| :: !Creates(acts[j], (Database, run[10].live[Database].oid)))
      && MarksForeign(run, acts, 8, (Database, run[10].live[Database].oid))
  {
    hide Next, Valid, Accepts, IsPlanned;
    m := LargestIdentifier(s.used);
    SavesAccepted(s.lease, m + 1);
    NameCleared(s, m);
    RoleCreated(s, m);
    RoleRecorded(s, m);
    DatabasePlanned(s.lease, m + 1);
    DatabaseCreated(s, m);
    DatabaseReplaced(s, m);
    ReplacementMarked(s, m);
    ReplacementDropped(s, m);
  }

  lemma {:induction false} LargestIdentifier(used: set<Ident>) returns (m: nat)
    ensures Above(used, m)
  {
    if used == {} {
      m := 0;
    } else {
      var id: Ident :| id in used;
      m := LargestIdentifier(used - {id});
      if id.1 > m {
        m := id.1;
      }
      assert forall other | other in used :: other == id || other in used - {id};
    }
  }

  lemma DatabasePlanned(l: Record, role: nat)
    requires Valid(RoleThenPlan(l, role)) && l.state.Allocating?
    ensures IsPlanned(RoleThenPlan(l, role), Database)
    ensures Accepts(RoleThenPlan(l, role), Cleaning_(RoleThenPlan(l, role)))
  {
    CleaningAccepted(RoleThenPlan(l, role));
    FindAppended([AcquiredResource(l, Role, role)], PlannedResource(l, Database), Database);
    assert RoleThenPlan(l, role).resources == [AcquiredResource(l, Role, role)] + [PlannedResource(l, Database)];
  }
}
