/**
 Provisioning and cleanup of one allocation on an existing server, as the code
 performs them. `run` and `acts` keep every durable state the code passes through
 and the protocol action that led to it, so that what is proved of all runs of the
 protocol holds of these methods wherever they are interrupted.
 */
module AdminAllocations {
  import opened Options
  import opened LeaseRecords
  import opened LeaseFiles
  import opened LeaseProtocol
  import opened LeaseRecovery

  /** Hostile: other sessions act between any two steps. Dropping: they at most drop objects. Calm: nothing disturbs or fails. */
  datatype Env = Hostile | Dropping | Calm

  datatype Problem = NoProblem | OwnershipProblem | ProvisionProblem | LeaseProblem

  function CategoryOf(p: Problem, expired: bool): Category {
    if expired then Timeout
    else if p.LeaseProblem? then Persist
    else if p.OwnershipProblem? then Ownership
    else Remove
  }

  class Allocation {
    const lease: LeaseFile
    const admin: nat
    var registry: map<Kind, Row>
    var live: map<Kind, Live>
    var credential: bool
    var used: set<Ident>
    var mine: set<Ident>
    var awaitingMark: bool
    var gone: set<Kind>
    ghost var run: seq<Sys>
    ghost var acts: seq<Action>

    function Now(): Sys
      reads this, lease
      requires lease.disk.Some?
    {
      Sys(admin, lease.disk.value, registry, live, credential, used, mine, awaitingMark, gone)
    }

    /** The stores are where a run of the protocol has brought them. */
    ghost predicate Tracked()
      reads this, lease
    {
      lease.disk.Some? && IsRun(run, acts) && run[|run| - 1] == Now()
    }

    /** The run only grows, and without hostile sessions the others at most drop objects. */
    twostate predicate Continues(env: Env)
      reads this, lease
    {
      && Tracked()
      && old(run) <= run
      && (!env.Hostile? && Quiet(old(run), old(acts)) ==> Quiet(run, acts))
    }

    constructor (first: Record, file: LeaseFile, admin: nat, live: map<Kind, Live>, used: set<Ident>)
      requires Valid(first) && first.state.Allocating? && first.factory.mode.ExistingAdmin?
      requires first.resources == [] && first.credentialRef.NoCredential? && first.cleanupErrors == []
      requires file.InSync() && file.record == first
      requires TakenBy(live) <= used && forall k | k in live :: live[k].oid != 0
      ensures Tracked() && lease == file && Quiet(run, acts) && this.live == live
      ensures registry == map[] && fresh(this)
    {
      lease := file;
      this.admin := admin;
      registry, this.live, credential := map[], live, false;
      this.used, mine, awaitingMark, gone := used, {}, false, {};
      new;
      run, acts := [Now()], [];
    }

    /** Accounts for a durable change that has just been made. */
    ghost method Log(a: Action)
      requires lease.disk.Some? && IsRun(run, acts) && Next(run[|run| - 1], a, Now())
      modifies this`run, this`acts
      ensures Tracked() && run == old(run) + [Now()] && acts == old(acts) + [a]
      ensures Quiet(old(run), old(acts)) && (a.Foreign? ==> OnlyRemoves(old(run)[|old(run)| - 1], Now())) ==> Quiet(run, acts)
    {
      ExtendRun(run, acts, a, Now());
      if Quiet(run, acts) && (a.Foreign? ==> OnlyRemoves(run[|run| - 1], Now())) {
        QuietGrows(run, acts, a, Now());
      }
      run, acts := run + [Now()], acts + [a];
    }

    /** Whatever other sessions do before this process takes its next step. */
    method Interfere(env: Env)
      requires Tracked()
      modifies this`live, this`used, this`run, this`acts
      ensures Continues(env)
      ensures env.Calm? ==> live == old(live) && used == old(used)
    {
      if !env.Calm? {
        var live_: map<Kind, Live> := *;
        var used_: set<Ident> := *;
        var gone_: set<Kind> := *;
        if env.Dropping? {
          live_, used_ := live - gone_, used;
        }
        if ForeignMove(Now(), Now().(live := live_, used := used_)) {
          live, used := live_, used_;
          Log(Foreign);
        }
      }
    }

    /** A guarded save whose effect, if the file accepts it, is the action `a`. */
    method SaveLease(next: Record, ghost a: Action, env: Env) returns (ok: bool)
      requires Tracked() && !a.Foreign?
      requires lease.InSync() && Accepts(lease.record, next) ==> Next(Now(), a, Now().(lease := next))
      modifies lease, this`run, this`acts
      ensures Continues(env)
      ensures ok ==> old(lease.InSync()) && Accepts(old(lease.record), next)
      ensures ok ==> lease.InSync() && lease.record == next
      ensures !ok ==> lease.record == old(lease.record)
      ensures !ok && lease.disk != old(lease.disk) ==> lease.disk == Some(next)
      ensures env.Calm? && old(lease.InSync()) && Accepts(old(lease.record), next) ==> ok
      ensures env.Calm? && !ok ==> lease.disk == old(lease.disk)
    {
      hide Valid, Next, IsRun, Accepts, Quiet;
      ok := lease.Save(next, env.Calm?);
      if lease.disk != old(lease.disk) {
        Log(a);
      }
    }

    /** The process loses what it remembered: it ended, or gave up on a step. */
    method Forget(env: Env)
      requires Tracked()
      modifies this`awaitingMark, this`gone, this`run, this`acts
      ensures Continues(env)
      ensures !awaitingMark && gone == {}
    {
      awaitingMark, gone := false, {};
      Log(Restart);
    }

    /** A new process opens the lease an earlier one left. */
    method Reopen(env: Env) returns (ok: bool)
      requires Tracked()
      modifies this`awaitingMark, this`gone, this`run, this`acts, lease`record
      ensures Continues(env)
      ensures ok <==> Valid(lease.disk.value)
      ensures ok ==> lease.InSync()
      ensures Now() == AtRest(old(Now()))
    {
      Forget(env);
      ok := lease.Open();
    }

    // ---------- provisioning ----------

    method PlanLeaseResource(k: Kind, env: Env) returns (ok: bool)
      requires Tracked() && (k.Role? || (k.Database? && Role in Kinds(lease.record.resources)))
      modifies lease, this`run, this`acts
      ensures Continues(env)
      ensures ok ==> lease.InSync() && lease.record.state.Allocating? && IsPlanned(lease.record, k)
      ensures ok ==> lease.record == WithPlanned(old(lease.record), k)
      ensures env.Calm? && old(lease.InSync()) && Accepts(old(lease.record), WithPlanned(old(lease.record), k)) ==> ok
    {
      var before := lease.record;
      var next := WithPlanned(before, k);
      ok := SaveLease(next, PlanResource(k), env);
      if ok {
        PlannedOnce(before, k);
        FindAppended(before.resources, PlannedResource(before, k), k);
      }
    }

    /** Replaces the resource of that kind and saves; refuses a kind that was never planned. */
    method SaveLeaseResource(resource: Resource, ghost a: Action, env: Env) returns (ok: bool)
      requires Tracked() && !a.Foreign?
      requires lease.InSync() && Accepts(lease.record, WithResource(lease.record, resource)) ==>
        Next(Now(), a, Now().(lease := WithResource(lease.record, resource)))
      requires DistinctKinds(lease.record.resources)
      modifies lease, this`run, this`acts
      ensures Continues(env)
      ensures ok ==> lease.InSync() && lease.record == WithResource(old(lease.record), resource)
      ensures !ok ==> lease.record == old(lease.record)
      ensures !ok && lease.disk != old(lease.disk) ==> lease.disk == Some(WithResource(old(lease.record), resource))
      ensures env.Calm? && old(lease.InSync()) && resource.kind in Kinds(old(lease.record).resources) ==>
        && (ok <==> Accepts(old(lease.record), WithResource(old(lease.record), resource)))
        && (!ok ==> lease.disk == old(lease.disk))
    {
      hide Valid, Next, IsRun, Accepts, Quiet;
      var rs := lease.record.resources;
      for i := 0 to |rs|
        invariant forall j | 0 <= j < i :: rs[j].kind != resource.kind
      {
        if rs[i].kind == resource.kind {
          assert rs[i := resource] == Replace(rs, resource);
          ok := SaveLease(lease.record.(resources := rs[i := resource]), a, env);
          return;
        }
      }
      return false;
    }

    /** The server picks an identifier nobody ever had. */
    method PickIdentifier(k: Kind) returns (oid: nat)
      ensures oid != 0 && (k, oid) !in used
    {
      var largest: nat := 0;
      var rest: set<Ident> := used;
      while rest != {}
        invariant rest <= used && forall id | id in used && id !in rest :: id.1 <= largest
        decreases |rest|
      {
        var id: Ident :| id in rest;
        if id.1 > largest {
          largest := id.1;
        }
        rest := rest - {id};
      }
      var skip: int := *;
      oid := largest + 1 + (if skip > 0 then skip else 0);
    }

    /** One transaction: create and mark the role, read its identifier, register it as acquired. */
    method CreateOwnedRole(env: Env) returns (ok: bool, oid: nat)
      requires Tracked() && lease.InSync() && lease.record.state.Allocating? && IsPlanned(lease.record, Role)
      modifies this`registry, this`live, this`used, this`mine, this`run, this`acts
      ensures Continues(env)
      ensures ok ==> Role in registry && registry[Role] == NewRow(Now(), Acquired, oid) && oid != 0
      ensures ok ==> registry == old(registry)[Role := registry[Role]]
      ensures ok ==> live == old(live)[Role := Live(oid, 0, lease.record.Marker(), true, 0)]
      ensures env.Calm? ==> (ok <==> Role !in old(live) && Role !in old(registry))
    {
      hide Accepts, Valid, Quiet;
      oid := PickIdentifier(Role);
      var committed: bool := *;
      var acknowledged: bool := *;
      if Role in live || Role in registry || (!committed && !env.Calm?) {
        return false, oid;
      }
      registry := registry[Role := NewRow(Now(), Acquired, oid)];
      live := live[Role := Live(oid, 0, lease.record.Marker(), true, 0)];
      used, mine := used + {(Role, oid)}, mine + {(Role, oid)};
      Log(CreateRole(oid));
      ok := acknowledged || env.Calm?;
    }

    /** The object, its registry row and its identifier agree, and the object carries the allocation's mark. */
    ghost predicate Present(k: Kind)
      reads this, lease
      requires lease.disk.Some?
    {
      && k in registry && k in live && live[k].oid != 0
      && registry[k] == NewRow(Now(), Acquired, live[k].oid) && live[k].marker == lease.record.Marker()
    }

    /** A lease that has just been created, on a server that knows nothing of it. */
    ghost predicate Untouched()
      reads this, lease
    {
      && lease.InSync() && lease.record.state.Allocating? && lease.record.factory.mode.ExistingAdmin?
      && lease.record.resources == [] && lease.record.cleanupErrors == []
      && registry == map[] && live == map[] && !credential
    }

    method ProvisionRole(env: Env) returns (ok: bool)
      requires Tracked()
      modifies this, lease
      ensures Continues(env)
      ensures ok ==> lease.InSync() && lease.record.state.Allocating? && Role in Kinds(lease.record.resources)
      ensures env.Calm? && old(Untouched()) ==>
        && ok && Present(Role) && SameBut(Role, old(Now()), Now())
        && lease.record == old(lease.record).(resources := [AcquiredResource(lease.record, Role, live[Role].oid)])
    {
      hide Valid, Next, Accepts, Quiet, SameBut;
      ghost var first := lease.record;
      if Untouched() {
        PlanAccepted(first, Role);
      }
      ok := PlanLeaseResource(Role, env);
      if !ok {
        return;
      }
      Interfere(env);
      var oid;
      ok, oid := CreateOwnedRole(env);
      if !ok {
        return;
      }
      Interfere(env);
      ok := RecordResource(Role, oid, env);
      if env.Calm? {
        SameButOne(Role, old(Now()), Now());
      }
    }

    /** Records the acquired identifier in the lease. */
    method RecordResource(k: Kind, oid: nat, env: Env) returns (ok: bool)
      requires Tracked() && (k.Role? || k.Database?)
      requires lease.InSync() && lease.record.state.Allocating? && IsPlanned(lease.record, k)
      requires k in registry && registry[k].state.Acquired? && registry[k].oid == oid
      modifies lease, this`run, this`acts
      ensures Continues(env)
      ensures ok ==> lease.InSync() && lease.record.state.Allocating?
      ensures ok ==> Find(lease.record.resources, k) == Some(AcquiredResource(lease.record, k, oid))
      ensures ok ==> lease.record == WithResource(old(lease.record), AcquiredResource(old(lease.record), k, oid))
      ensures env.Calm? && oid != 0 ==> ok
    {
      hide Valid, IsRun, Accepts, Next, DistinctKinds, Find, Quiet;
      FindReplaced(lease.record.resources, AcquiredResource(lease.record, k, oid), k);
      DistinctIfValid(lease.record);
      if Accepts(lease.record, WithResource(lease.record, AcquiredResource(lease.record, k, oid))) {
        AcquiredStep(Now(), k);
      }
      if oid != 0 {
        AcquireAccepted(lease.record, k, oid);
      }
      ok := SaveLeaseResource(AcquiredResource(lease.record, k, oid), RecordAcquired(k), env);
    }

    method RegisterDatabasePlan(env: Env) returns (ok: bool)
      requires Tracked() && lease.InSync() && lease.record.state.Allocating? && IsPlanned(lease.record, Database)
      modifies this`registry, this`run, this`acts
      ensures Continues(env)
      ensures ok ==> Database in registry && registry[Database] == NewRow(Now(), Planned, 0)
      ensures ok ==> registry == old(registry)[Database := registry[Database]]
      ensures env.Calm? ==> (ok <==> Database !in old(registry))
    {
      hide Valid, Quiet;
      var committed: bool := *;
      var acknowledged: bool := *;
      if Database in registry || (!committed && !env.Calm?) {
        return false;
      }
      registry := registry[Database := NewRow(Now(), Planned, 0)];
      Log(RegisterPlan);
      ok := acknowledged || env.Calm?;
    }

    /** CREATE DATABASE runs outside any transaction. */
    method CreateDatabaseObject(env: Env) returns (ok: bool)
      requires Tracked() && lease.InSync() && lease.record.state.Allocating? && IsPlanned(lease.record, Database)
      requires Database in registry && registry[Database] == NewRow(Now(), Planned, 0)
      modifies this`live, this`used, this`mine, this`awaitingMark, this`run, this`acts
      ensures Continues(env)
      ensures ok ==> awaitingMark && Database in live && live == old(live)[Database := live[Database]]
      ensures ok ==> live[Database].oid != 0 && live[Database].owner == admin
      ensures env.Calm? ==> (ok <==> Database !in old(live))
    {
      hide Accepts, Valid, Quiet;
      var oid := PickIdentifier(Database);
      var executed: bool := *;
      var acknowledged: bool := *;
      if Database in live || (!executed && !env.Calm?) {
        return false;
      }
      live := live[Database := Live(oid, admin, NO_COMMENT, false, 0)];
      used, mine, awaitingMark := used + {(Database, oid)}, mine + {(Database, oid)}, true;
      Log(CreateDatabase(oid));
      ok := acknowledged || env.Calm?;
    }

    /** One transaction: mark the database, check its owner, record its identifier in the registry. */
    method MarkCreatedDatabase(env: Env) returns (ok: bool, oid: nat)
      requires Tracked() && lease.InSync() && lease.record.state.Allocating? && IsPlanned(lease.record, Database)
      requires Database in registry && registry[Database].state.Planned? && awaitingMark
      modifies this`registry, this`live, this`awaitingMark, this`run, this`acts
      ensures Continues(env)
      ensures ok ==> Database in registry && registry[Database].state.Acquired? && registry[Database].oid == oid
      ensures ok ==> MarkedFrom(old(Now()), Now()) && oid == old(live)[Database].oid
      ensures env.Calm? ==> (ok <==> Database in old(live) && old(live)[Database].owner == admin && Role in old(live))
    {
      hide Valid, Quiet;
      oid := 0;
      var committed: bool := *;
      var acknowledged: bool := *;
      if Database !in live || Role !in live || live[Database].owner != admin || (!committed && !env.Calm?) {
        return false, oid;
      }
      oid := live[Database].oid;
      registry := registry[Database := registry[Database].(state := Acquired, oid := oid)];
      live := live[Database := live[Database].(marker := lease.record.Marker(), dependent := live[Role].oid)];
      awaitingMark := false;
      Log(MarkDatabase);
      ok := acknowledged || env.Calm?;
    }

    /** The window in which a database exists that the registry cannot yet name. */
    method CreateAndMark(env: Env) returns (ok: bool, oid: nat)
      requires Tracked() && lease.InSync() && lease.record.state.Allocating? && IsPlanned(lease.record, Database)
      requires Database in registry && registry[Database] == NewRow(Now(), Planned, 0)
      modifies this
      ensures Continues(env)
      ensures ok ==> Database in registry && registry[Database].state.Acquired? && registry[Database].oid == oid
      ensures env.Calm? && Database !in old(live) && Role in old(live) ==> ok && oid != 0 && Present(Database)
      ensures env.Calm? && ok ==> SameBut(Database, old(Now()), Now())
    {
      hide Valid, Next, Accepts, Quiet, IsRun, IsPlanned, ForeignMove, SameBut;
      oid := 0;
      ok := CreateDatabaseObject(env);
      if ok {
        Interfere(env);
        ghost var created := Now();
        ok, oid := MarkCreatedDatabase(env);
        if env.Calm? && ok {
          SameButOne(Database, old(Now()), created);
          SameButOne(Database, created, Now());
          SameButTrans(Database, old(Now()), created, Now());
        }
      }
      if !ok {
        Forget(env);
      }
    }

    /** The role is there, the database is not. */
    ghost predicate ReadyForDatabase()
      reads this, lease
    {
      && lease.InSync() && lease.record.state.Allocating? && lease.record.factory.mode.ExistingAdmin?
      && |lease.record.resources| == 1 && lease.record.resources[0].kind.Role? && lease.record.cleanupErrors == []
      && Database !in registry && Database !in live && Role in live
    }

    method ProvisionDatabase(env: Env) returns (ok: bool)
      requires Tracked() && Role in Kinds(lease.record.resources)
      modifies this, lease
      ensures Continues(env)
      ensures ok ==> lease.InSync() && lease.record.state.Allocating?
      ensures env.Calm? && old(ReadyForDatabase()) ==>
        && ok && Present(Database) && SameBut(Database, old(Now()), Now())
        && lease.record == old(lease.record).(resources :=
             old(lease.record).resources + [AcquiredResource(lease.record, Database, live[Database].oid)])
    {
      hide Valid, Next, Accepts, Find, IsPlanned, WithResource, IsRun, Kinds, DistinctKinds, Quiet, SameBut;
      ghost var first := lease.record;
      if ReadyForDatabase() {
        PlanAccepted(first, Database);
      }
      ok := PlanLeaseResource(Database, env);
      if !ok {
        return;
      }
      ghost var planned := Now();
      ok := CreateAndRecord(env);
      SameButOne(Database, old(Now()), planned);
      if SameBut(Database, planned, Now()) {
        SameButTrans(Database, old(Now()), planned, Now());
      }
      if ok && |first.resources| == 1 && first.resources[0].kind.Role? && Database in live {
        PlanThenAcquire(first, Database, live[Database].oid);
      }
    }

    /** Creates the planned database and records its identifier in the lease. */
    method CreateAndRecord(env: Env) returns (ok: bool)
      requires Tracked() && lease.InSync() && lease.record.state.Allocating? && IsPlanned(lease.record, Database)
      modifies this, lease
      ensures Continues(env)
      ensures ok ==> lease.InSync() && lease.record.state.Allocating?
      ensures env.Calm? && Database !in old(live) && Database !in old(registry) && Role in old(live) ==>
        && ok && Present(Database) && SameBut(Database, old(Now()), Now())
        && lease.record == WithResource(old(lease.record), AcquiredResource(old(lease.record), Database, live[Database].oid))
    {
      hide Valid, Next, Accepts, Find, IsPlanned, IsRun, Kinds, DistinctKinds, Quiet, SameBut;
      var oid;
      ok, oid := RegisterAndCreate(env);
      if !ok {
        return;
      }
      Interfere(env);
      ghost var created := Now();
      ok := RecordResource(Database, oid, env);
      SameButOne(Database, created, Now());
      if SameBut(Database, old(Now()), created) {
        SameButTrans(Database, old(Now()), created, Now());
      }
    }

    /** The row of the plan, then the database itself. */
    method RegisterAndCreate(env: Env) returns (ok: bool, oid: nat)
      requires Tracked() && lease.InSync() && lease.record.state.Allocating? && IsPlanned(lease.record, Database)
      modifies this
      ensures Continues(env)
      ensures ok ==> Database in registry && registry[Database].state.Acquired? && registry[Database].oid == oid
      ensures env.Calm? && Database !in old(live) && Database !in old(registry) && Role in old(live) ==>
        ok && oid != 0 && Present(Database) && SameBut(Database, old(Now()), Now())
    {
      hide Valid, Next, Accepts, Find, IsRun, Quiet, SameBut;
      oid := 0;
      Interfere(env);
      ok := RegisterDatabasePlan(env);
      if !ok {
        return;
      }
      Interfere(env);
      ghost var registered := Now();
      ok, oid := CreateAndMark(env);
      if env.Calm? && ok {
        SameButOne(Database, old(Now()), registered);
        SameButTrans(Database, old(Now()), registered, Now());
      }
    }

    /** The reference is saved first, then the file is created. */
    method WriteCredentialFile(env: Env) returns (ok: bool)
      requires Tracked() && lease.record.state.Allocating?
      modifies lease, this`credential, this`run, this`acts
      ensures Continues(env)
      ensures ok ==> lease.InSync() && lease.record.state.Allocating? && credential
      ensures ok ==> lease.record == old(lease.record).(credentialRef := ConnectionFile)
      ensures env.Calm? && old(lease.InSync()) && !old(credential) ==> ok
    {
      if lease.InSync() {
        ReferAccepted(lease.record);
      }
      ok := SaveLease(lease.record.(credentialRef := ConnectionFile), ReferCredential, env);
      if !ok {
        return;
      }
      var written: bool := *;
      if credential || (!written && !env.Calm?) {
        return false;
      }
      credential := true;
      Log(WriteCredential);
    }

    method OpenTarget(env: Env) returns (ok: bool)
      requires Tracked() && lease.record.state.Allocating?
      modifies this, lease
      ensures Continues(env)
      ensures ok ==> lease.InSync() && lease.record.state.Ready?
      ensures env.Calm? && old(lease.InSync()) && !old(credential) && BothAcquired(old(lease.record)) ==>
        && ok && credential && registry == old(registry) && live == old(live)
        && lease.record == old(lease.record).(credentialRef := ConnectionFile, state := Ready)
    {
      hide Valid, Accepts, Quiet;
      var prepared: bool := *;
      if !prepared && !env.Calm? {
        return false;
      }
      ok := WriteCredentialFile(env);
      if !ok {
        return;
      }
      Interfere(env);
      var connected: bool := *;
      if !connected && !env.Calm? {
        return false;
      }
      if lease.InSync() && BothAcquired(lease.record) {
        ReadyAccepted(lease.record);
      }
      ok := SaveLease(lease.record.(state := Ready), EnterReady, env);
    }

    /** Undisturbed, a new lease ends up ready, with its role and database marked, registered and recorded. */
    method Provision(env: Env) returns (ok: bool)
      requires Tracked()
      modifies this, lease
      ensures Continues(env)
      ensures ok ==> lease.InSync() && lease.record.state.Ready?
      ensures env.Calm? && old(Untouched()) ==>
        && ok && credential && Present(Role) && Present(Database)
        && lease.record.resources == [AcquiredResource(lease.record, Role, live[Role].oid),
                                      AcquiredResource(lease.record, Database, live[Database].oid)]
    {
      hide Valid, Next, Accepts, Quiet;
      var locked: bool := *;
      if !locked && !env.Calm? {
        return false;
      }
      ok := ProvisionRole(env);
      if !ok {
        return;
      }
      ok := ProvisionDatabase(env);
      if !ok {
        return;
      }
      ok := OpenTarget(env);
    }

    /** Use of an open target before its deadline; the first one moves the lease to running. */
    method BeginUse(env: Env) returns (ok: bool)
      requires Tracked()
      modifies lease, this`run, this`acts
      ensures Continues(env)
      ensures ok ==> lease.record == old(lease.record).(state := Running)
      ensures ok ==> old(lease.record).state.Ready? || old(lease.record).state.Running?
      ensures !ok ==> lease.record == old(lease.record)
      ensures old(lease.record).state.Running? ==> lease.disk == old(lease.disk)
    {
      var usable: bool := *;
      if !usable {
        return false;
      }
      if lease.record.state.Ready? {
        ok := SaveLease(lease.record.(state := Running), EnterRunning, env);
      } else {
        ok := lease.record.state.Running?;
      }
    }

    // ---------- cleanup ----------

    /** The stored lease belongs to the allocation this process works on, and both are being cleaned. */
    ghost predicate BeingCleaned()
      reads this, lease
    {
      && lease.disk.Some?
      && lease.record.state.Cleaning? && lease.disk.value.state.Cleaning?
      && SameAllocation(lease.record, lease.disk.value)
      && DistinctKinds(lease.record.resources) && AllLabelled(lease.record)
    }

    method BeginLeaseCleanup(env: Env) returns (ok: bool)
      requires Tracked()
      modifies lease, this`awaitingMark, this`gone, this`run, this`acts
      ensures Continues(env)
      ensures ok ==> lease.InSync() && lease.record == Cleaning_(old(lease.record)) && BeingCleaned()
      ensures env.Calm? && old(lease.InSync()) ==>
        && (ok <==> Accepts(old(lease.record), Cleaning_(old(lease.record))))
        && AtRest(Now()) == if ok then AtRest(old(Now())).(lease := Cleaning_(old(lease.record))) else AtRest(old(Now()))
    {
      Forget(env);
      ok := SaveLease(Cleaning_(lease.record), BeginCleanup, env);
    }

    /** Verifies against all stores and, when the object is this allocation's own, drops it in the same step. */
    method VerifyAndDrop(resource: Resource, env: Env) returns (p: Problem)
      requires Tracked() && BeingCleaned() && resource in lease.record.resources
      modifies this`live, this`gone, this`run, this`acts
      ensures Continues(env)
      ensures p.NoProblem? ==> resource.kind in gone && !VerifyOwned(old(Now()), resource).Refused?
      ensures p.NoProblem? ==> live == old(live) - {resource.kind} && !Blocked(old(live), resource.kind)
      ensures env.Calm? && VerifyOwned(old(Now()), resource).Refused? ==> p.OwnershipProblem? && Now() == old(Now())
      ensures env.Calm? && !VerifyOwned(old(Now()), resource).Refused? ==>
        if Blocked(old(live), resource.kind) then p.ProvisionProblem? && Now() == old(Now()) else p.NoProblem?
    {
      hide Accepts, IsRun, Next, VerifyOwned, Quiet, Blocked;
      LabelledOnDisk(lease.record, lease.disk.value, resource);
      var trusted: bool := *;
      var verdict := VerifyOwned(Now(), resource);
      if (!env.Calm? && !trusted) || verdict.Refused? {
        return OwnershipProblem;
      }
      if verdict.Absent? {
        AbsentStep(Now(), resource);
        gone := gone + {resource.kind};
        Log(ObserveAbsent(resource));
        return NoProblem;
      }
      var executed: bool := *;
      var acknowledged: bool := *;
      if Blocked(live, resource.kind) || (!env.Calm? && !executed) {
        return ProvisionProblem;
      }
      DropStep(Now(), resource);
      live, gone := live - {resource.kind}, gone + {resource.kind};
      Log(Drop(resource));
      p := if env.Calm? || acknowledged then NoProblem else ProvisionProblem;
    }

    method RecordResourceReleased(k: Kind, env: Env) returns (p: Problem)
      requires Tracked() && BeingCleaned() && k in gone && k in registry
      modifies this`registry, this`run, this`acts
      ensures Continues(env)
      ensures registry == old(registry) || registry == RowReleased(old(Now()), k).registry
      ensures p.NoProblem? ==> registry == RowReleased(old(Now()), k).registry
      ensures env.Calm? ==> p.NoProblem?
    {
      hide Valid, Accepts, Quiet;
      var committed: bool := *;
      var acknowledged: bool := *;
      if !env.Calm? && !committed {
        return ProvisionProblem;
      }
      registry := registry[k := registry[k].(state := Released)];
      Log(RecordReleased(k));
      p := if env.Calm? || acknowledged then NoProblem else OwnershipProblem;
    }

    method SaveReleasedResource(resource: Resource, env: Env) returns (p: Problem)
      requires Tracked() && BeingCleaned() && resource in lease.record.resources
      requires resource.kind in gone && (resource.kind in registry ==> registry[resource.kind].state.Released?)
      modifies lease, this`run, this`acts
      ensures Continues(env) && BeingCleaned()
      ensures |lease.record.resources| == |old(lease.record).resources|
      ensures Kinds(lease.record.resources) == Kinds(old(lease.record).resources)
      ensures env.Calm? && old(lease.InSync()) ==>
        && lease.InSync()
        && var (t, failures) := SaveRelease(old(Now()), resource);
           Now() == t && failures == if p.NoProblem? then [] else [Failure(resource.kind, CategoryOf(p, false))]
    {
      hide Valid, IsRun, Accepts, Next, DistinctKinds, Kinds, Find, Quiet;
      var r := resource.(state := Released);
      var rs := lease.record.resources;
      var i :| 0 <= i < |rs| && rs[i] == resource;
      FindAt(rs, i);
      SameKinds(rs, r);
      KindAt(rs, i);
      ReplaceKeepsLabels(lease.record, resource);
      if lease.InSync() && Accepts(lease.record, WithResource(lease.record, r)) {
        ReleasedStep(Now(), resource);
      }
      var ok := SaveLeaseResource(r, SaveReleased(resource.kind), env);
      p := if ok then NoProblem else LeaseProblem;
    }

    /** The row if there is one, then the lease. */
    method RecordAndSave(resource: Resource, env: Env) returns (p: Problem)
      requires Tracked() && BeingCleaned() && resource in lease.record.resources && resource.kind in gone
      modifies this, lease
      ensures Continues(env) && BeingCleaned()
      ensures |lease.record.resources| == |old(lease.record).resources|
      ensures Kinds(lease.record.resources) == Kinds(old(lease.record).resources)
      ensures env.Calm? && old(lease.InSync()) ==>
        && lease.InSync()
        && var (t, failures) := SaveRelease(RowReleased(old(Now()), resource.kind), resource);
           Now() == t && failures == if p.NoProblem? then [] else [Failure(resource.kind, CategoryOf(p, false))]
    {
      hide Valid, Accepts, Next, IsRun, DistinctKinds, Kinds, SaveRelease, Quiet;
      if resource.kind in registry {
        p := RecordResourceReleased(resource.kind, env);
        if !p.NoProblem? {
          return;
        }
        Interfere(env);
      }
      p := SaveReleasedResource(resource, env);
    }

    /** `cleanupAdminResource`: the three stores, one after the other. */
    method CleanupAdminResource(resource: Resource, env: Env) returns (p: Problem)
      requires Tracked() && BeingCleaned() && resource in lease.record.resources
      modifies this, lease
      ensures Continues(env) && BeingCleaned()
      ensures |lease.record.resources| == |old(lease.record).resources|
      ensures Kinds(lease.record.resources) == Kinds(old(lease.record).resources)
      ensures env.Calm? && old(lease.InSync()) ==>
        && lease.InSync()
        && var (t, failures) := ReleaseOne(AtRest(old(Now())), resource);
           && AtRest(Now()) == t
           && failures == if p.NoProblem? then [] else [Failure(resource.kind, CategoryOf(p, false))]
    {
      hide Valid, Accepts, Next, IsRun, DistinctKinds, Kinds, SaveRelease, VerifyOwned, ReleaseOne, Quiet;
      ReleaseOneUnfolds(Now(), resource);
      p := VerifyAndDrop(resource, env);
      if !p.NoProblem? {
        return;
      }
      Interfere(env);
      SaveReleaseAtRest(RowReleased(Now(), resource.kind), resource);
      p := RecordAndSave(resource, env);
    }

    /** A failure a lease may record: it names one of its resources, or the credential file. */
    ghost predicate Reportable(failures: seq<Failure>)
      reads lease
    {
      forall f | f in failures ::
        (f.kind in Kinds(lease.record.resources) || f.kind.Credentials?) && !f.category.OtherCategory?
    }

    /** Every resource fails alike when the server cannot be reached or locked. */
    method FailedLeaseResources(category: Category) returns (failures: seq<Failure>)
      requires !category.OtherCategory?
      ensures |failures| == |lease.record.resources| && Reportable(failures)
      ensures forall i | 0 <= i < |failures| :: failures[i] == Failure(lease.record.resources[i].kind, category)
    {
      failures := [];
      for i := 0 to |lease.record.resources|
        invariant |failures| == i
        invariant forall j | 0 <= j < i :: failures[j] == Failure(lease.record.resources[j].kind, category)
      {
        failures := failures + [Failure(lease.record.resources[i].kind, category)];
      }
    }

    /** Newest resource first. */
    method CleanupAdminResources(env: Env) returns (failures: seq<Failure>)
      requires Tracked() && BeingCleaned()
      modifies this, lease
      ensures Continues(env) && BeingCleaned()
      ensures |failures| <= |lease.record.resources| && Reportable(failures)
      ensures |lease.record.resources| == |old(lease.record).resources|
      ensures env.Calm? && old(lease.InSync()) ==>
        && lease.InSync()
        && AtRest(Now()) == ReleaseDown(AtRest(old(Now())), |old(lease.record).resources|).0
        && failures == ReleaseDown(AtRest(old(Now())), |old(lease.record).resources|).1
    {
      hide Valid, Accepts, Next, IsRun, DistinctKinds, Kinds, ReleaseOne, SameAllocation, Quiet;
      var connected: bool := *;
      var locked: bool := *;
      if !env.Calm? && !connected {
        failures := FailedLeaseResources(Connection);
        return;
      }
      if !env.Calm? && !locked {
        failures := FailedLeaseResources(Ownership);
        return;
      }
      failures := [];
      ghost var n := |lease.record.resources|;
      ghost var start := AtRest(Now());
      for i := |lease.record.resources| downto 0
        invariant Continues(env) && BeingCleaned()
        invariant |lease.record.resources| == n && |failures| <= n - i
        invariant Kinds(lease.record.resources) == Kinds(old(lease.record).resources) && Reportable(failures)
        invariant env.Calm? && old(lease.InSync()) ==>
          && lease.InSync()
          && ReleaseDown(start, n).0 == ReleaseDown(AtRest(Now()), i).0
          && ReleaseDown(start, n).1 == failures + ReleaseDown(AtRest(Now()), i).1
      {
        var resource := lease.record.resources[i];
        var expired: bool := *;
        KindAt(lease.record.resources, i);
        ghost var here := AtRest(Now());
        ghost var earlier := failures;
        var p := CleanupAdminResource(resource, env);
        if !p.NoProblem? {
          failures := failures + [Failure(resource.kind, CategoryOf(p, !env.Calm? && expired))];
        }
        if env.Calm? && old(lease.InSync()) {
          DownOne(here, i, earlier);
        }
      }
    }

    method RemoveCredentialFile(env: Env) returns (ok: bool)
      requires Tracked() && BeingCleaned()
      modifies this`credential, this`run, this`acts
      ensures Continues(env)
      ensures ok ==> !credential
      ensures env.Calm? ==> ok
    {
      if !credential {
        return true;
      }
      var removed: bool := *;
      var synced: bool := *;
      if !env.Calm? && !removed {
        return false;
      }
      credential := false;
      Log(RemoveCredential);
      ok := env.Calm? || synced;
    }

    method FinishLeaseCleanup(reported: seq<Failure>, env: Env) returns (ok: bool)
      requires Tracked() && BeingCleaned()
      modifies lease, this`credential, this`run, this`acts
      ensures Continues(env)
      ensures ok ==> lease.InSync() && lease.record.state.Cleaned?
      ensures env.Calm? && old(lease.InSync()) ==>
        && lease.InSync()
        && Now() == Finish(old(Now()).(credential := false), reported)
        && (ok <==> Now().lease.state.Cleaned?)
    {
      hide Valid, IsRun, Accepts, Quiet;
      var failures := reported;
      var removed := RemoveCredentialFile(env);
      if !removed {
        failures := failures + [Failure(Credentials, Ownership)];
      }
      if failures != [] {
        var persisted := SaveLease(Failed_(lease.record, failures), FinishFailed(failures), env);
        return false;
      }
      ok := SaveLease(Cleaned_(lease.record), FinishCleaned, env);
    }

    /** A cleaned allocation is only checked again; nothing is written. */
    method VerifyCleaned(env: Env) returns (ok: bool)
      requires Tracked()
      ensures ok ==> forall r | r in lease.record.resources :: VerifyOwned(Now(), r).Absent?
      ensures env.Calm? && (forall r | r in lease.record.resources :: VerifyOwned(Now(), r).Absent?) ==> ok
    {
      var connected: bool := *;
      if !env.Calm? && !connected && lease.record.resources != [] {
        return false;
      }
      for i := 0 to |lease.record.resources|
        invariant forall j | 0 <= j < i :: VerifyOwned(Now(), lease.record.resources[j]).Absent?
      {
        if !VerifyOwned(Now(), lease.record.resources[i]).Absent? {
          return false;
        }
      }
      ok := true;
    }

    /** `cleanupAdminAllocation`. Undisturbed, it is the function `Cleanup` of the stored state. */
    method CleanupAdminAllocation(env: Env) returns (ok: bool)
      requires Tracked()
      modifies this, lease
      ensures Continues(env)
      ensures ok ==> lease.record.state.Cleaned?
      ensures env.Calm? && old(lease.InSync()) ==> AtRest(Now()) == Cleanup(AtRest(old(Now())))
    {
      hide Valid, Next, IsRun, Accepts, ReleaseOne, Finish, Quiet;
      if lease.record.state.Cleaned? {
        ok := VerifyCleaned(env);
        return;
      }
      ok := BeginLeaseCleanup(env);
      if !ok {
        return;
      }
      var failures := [];
      if |lease.record.resources| > 0 {
        failures := CleanupAdminResources(env);
      }
      FinishAtRest(Now().(credential := false), failures);
      ok := FinishLeaseCleanup(failures, env);
    }

    /** After any undisturbed history, an undisturbed cleanup removes everything but an unmarked database. */
    method Recover() returns (ok: bool)
      requires Tracked() && Quiet(run, acts) && run[0].live == map[]
      modifies this, lease
      ensures Tracked() && old(run) <= run
      ensures var before := AtRest(old(Now()));
        if UnmarkedDatabase(before) then HeldByUnmarked(before, AtRest(Now())) else FullyCleaned(AtRest(Now()))
    {
      hide Valid, Next, HeldByUnmarked, FullyCleaned, Cleanup, Quiet;
      RecoversFromEveryCrash(run, acts, |run| - 1);
      QuietRunsStayExplained(run, acts, |run| - 1);
      var reopened := Reopen(Calm);
      ok := CleanupAdminAllocation(Calm);
    }
  }

  /** Rows and objects of the other kind, and the credential file, are as they were. */
  ghost predicate SameBut(k: Kind, a: Sys, b: Sys) {
    && (forall o: Kind | o != k :: (o in b.registry <==> o in a.registry) && (o in b.live <==> o in a.live))
    && (forall o: Kind | o != k && o in b.registry :: b.registry[o] == a.registry[o])
    && (forall o: Kind | o != k && o in b.live :: b.live[o] == a.live[o])
    && b.credential == a.credential
  }

  lemma SameButTrans(k: Kind, a: Sys, b: Sys, c: Sys)
    requires SameBut(k, a, b) && SameBut(k, b, c)
    ensures SameBut(k, a, c)
  {}

  lemma SameButOne(k: Kind, a: Sys, b: Sys)
    requires b.registry == a.registry || (k in b.registry && b.registry == a.registry[k := b.registry[k]])
    requires b.live == a.live || (k in b.live && b.live == a.live[k := b.live[k]])
    requires b.credential == a.credential
    ensures SameBut(k, a, b)
  {}

  /** The process works on this allocation's resources, though the file may be a save ahead of it. */
  predicate AllLabelled(l: Record) { forall r | r in l.resources :: Labelled(l, r) }

  lemma LabelledOnDisk(l: Record, disk: Record, r: Resource)
    requires SameAllocation(l, disk) && AllLabelled(l) && r in l.resources
    ensures Labelled(disk, r)
  {}

  lemma ReplaceKeepsLabels(l: Record, r: Resource)
    requires AllLabelled(l) && r in l.resources
    ensures AllLabelled(WithResource(l, r.(state := Released)))
  {
    var next := WithResource(l, r.(state := Released));
    forall x | x in next.resources
      ensures Labelled(next, x)
    {
      var i :| 0 <= i < |next.resources| && next.resources[i] == x;
      assert l.resources[i] in l.resources;
    }
  }

  /** The marking transaction: identifier into the row, mark onto the object. */
  ghost predicate MarkedFrom(s: Sys, t: Sys) {
    && Database in s.live && Database in s.registry
    && t.registry == s.registry[Database := s.registry[Database].(state := Acquired, oid := s.live[Database].oid)]
    && Role in s.live
    && t.live == s.live[Database := s.live[Database].(marker := s.lease.Marker(), dependent := s.live[Role].oid)]
    && t.credential == s.credential
  }

  predicate BothAcquired(l: Record) {
    && l.state.Allocating? && l.cleanupErrors == [] && |l.resources| == 2
    && l.resources[0].kind.Role? && l.resources[1].kind.Database?
    && l.resources[0].state.Acquired? && l.resources[1].state.Acquired?
  }

  lemma ReferAccepted(l: Record)
    requires Valid(l) && l.state.Allocating?
    ensures Accepts(l, l.(credentialRef := ConnectionFile))
  {
    hide ValidFactory;
  }

  lemma ReadyAccepted(l: Record)
    requires Valid(l) && BothAcquired(l) && l.credentialRef.ConnectionFile?
    ensures Accepts(l, l.(state := Ready))
  {
    hide ValidFactory;
    assert l.resources[0].kind in Kinds(l.resources) && l.resources[1].kind in Kinds(l.resources);
  }

  lemma AcquiredStep(s: Sys, k: Kind)
    requires (k.Role? || k.Database?) && s.lease.state.Allocating? && IsPlanned(s.lease, k)
    requires k in s.registry && s.registry[k].state.Acquired?
    requires Accepts(s.lease, WithResource(s.lease, AcquiredResource(s.lease, k, s.registry[k].oid)))
    ensures Next(s, RecordAcquired(k), s.(lease := WithResource(s.lease, AcquiredResource(s.lease, k, s.registry[k].oid))))
  {
    hide Accepts, Kinds, VerifyOwned;
  }

  lemma ReleasedStep(s: Sys, r: Resource)
    requires s.lease.state.Cleaning? && r.kind in s.gone && Find(s.lease.resources, r.kind) == Some(r)
    requires r.kind in s.registry ==> s.registry[r.kind].state.Released?
    requires Accepts(s.lease, WithResource(s.lease, r.(state := Released)))
    ensures Next(s, SaveReleased(r.kind), s.(lease := WithResource(s.lease, r.(state := Released))))
  {
    hide Accepts, Kinds, VerifyOwned, IsPlanned;
  }

  lemma DropStep(s: Sys, r: Resource)
    requires s.lease.state.Cleaning? && Labelled(s.lease, r) && VerifyOwned(s, r).Owned? && !Blocked(s.live, r.kind)
    ensures Next(s, Drop(r), s.(live := s.live - {r.kind}, gone := s.gone + {r.kind}))
  {
    hide VerifyOwned;
  }

  lemma AbsentStep(s: Sys, r: Resource)
    requires s.lease.state.Cleaning? && Labelled(s.lease, r) && VerifyOwned(s, r).Absent?
    ensures Next(s, ObserveAbsent(r), s.(gone := s.gone + {r.kind}))
    ensures s.live - {r.kind} == s.live && !Blocked(s.live, r.kind)
  {
    assert r.kind !in s.live;
  }

  lemma DownOne(s: Sys, i: nat, earlier: seq<Failure>)
    requires i < |s.lease.resources|
    ensures var (t, first) := ReleaseOne(s, s.lease.resources[i]);
      && i <= |t.lease.resources|
      && ReleaseDown(s, i + 1).0 == ReleaseDown(t, i).0
      && earlier + ReleaseDown(s, i + 1).1 == (earlier + first) + ReleaseDown(t, i).1
  {
    hide ReleaseOne;
  }

  /** Dropping what is absent and releasing a row that is missing change nothing, so one release is one expression. */
  lemma ReleaseOneUnfolds(s: Sys, r: Resource)
    ensures ReleaseOne(AtRest(s), r) ==
      if VerifyOwned(s, r).Refused? then (AtRest(s), [Failure(r.kind, Ownership)])
      else if Blocked(s.live, r.kind) then (AtRest(s), [Failure(r.kind, Remove)])
      else SaveRelease(RowReleased(AtRest(s).(live := s.live - {r.kind}), r.kind), r)
  {
    assert VerifyOwned(AtRest(s), r) == VerifyOwned(s, r);
    assert r.kind !in s.live ==> s.live - {r.kind} == s.live;
  }

  lemma SaveReleaseAtRest(s: Sys, r: Resource)
    ensures AtRest(SaveRelease(s, r).0) == SaveRelease(AtRest(s), r).0
    ensures SaveRelease(s, r).1 == SaveRelease(AtRest(s), r).1
  {
  }

  lemma FinishAtRest(s: Sys, failures: seq<Failure>)
    ensures AtRest(Finish(s, failures)) == Finish(AtRest(s), failures)
  {
  }

  lemma KindAt(rs: seq<Resource>, i: nat)
    requires i < |rs|
    ensures rs[i].kind in Kinds(rs)
  {
  }

  lemma SameKinds(rs: seq<Resource>, r: Resource)
    requires DistinctKinds(rs)
    ensures Kinds(Replace(rs, r)) == Kinds(rs) && DistinctKinds(Replace(rs, r))
  {
    assert forall j | 0 <= j < |rs| :: Replace(rs, r)[j].kind == rs[j].kind;
  }
}
