/**
 What one undisturbed cleanup makes of any state of any run, hostile sessions included:
 it follows the verdicts of verification, kind by kind.
 */
module LeaseVerdicts {
  import opened Options
  import opened LeaseRecords
  import opened LeaseProtocol
  import opened LeaseRecovery

  predicate RefusedAt(s: Sys, i: nat)
    requires i < |s.lease.resources|
  {
    VerifyOwned(s, s.lease.resources[i]).Refused?
  }

  /** The database's turn comes before that of resource i, and it is not refused. */
  predicate DatabaseGoes(s: Sys, i: nat, n: nat)
    requires n <= |s.lease.resources|
  {
    exists j :: i < j < n && s.lease.resources[j].kind.Database? && !RefusedAt(s, j)
  }

  /** The role is owned, but a live database depends on it and is not released before. */
  predicate KeptAt(s: Sys, i: nat, n: nat)
    requires i < n <= |s.lease.resources|
  {
    !RefusedAt(s, i) && Blocked(s.live, s.lease.resources[i].kind) && !DatabaseGoes(s, i, n)
  }

  predicate LeftAt(s: Sys, i: nat, n: nat)
    requires i < n <= |s.lease.resources|
  {
    RefusedAt(s, i) || KeptAt(s, i, n)
  }

  /** What resources i-1 down to 0 report, of a pass over the first n. */
  function Reports(s: Sys, i: nat, n: nat): (failures: seq<Failure>)
    requires i <= n <= |s.lease.resources|
    ensures |failures| <= i
    ensures failures == [] <==> forall k | 0 <= k < i :: !LeftAt(s, k, n)
    ensures forall f | f in failures :: f.kind in Kinds(s.lease.resources) && (f.category.Ownership? || f.category.Remove?)
  {
    if i == 0 then []
    else
      assert s.lease.resources[i - 1].kind in Kinds(s.lease.resources);
      var k := s.lease.resources[i - 1].kind;
      (if LeftAt(s, i - 1, n) then [Failure(k, if RefusedAt(s, i - 1) then Ownership else Remove)] else [])
      + Reports(s, i - 1, n)
  }

  /** Both states say the same about one kind. */
  predicate SameKind(s: Sys, t: Sys, k: Kind) {
    && (k in t.live <==> k in s.live) && (k in s.live ==> t.live[k] == s.live[k])
    && (k in t.registry <==> k in s.registry) && (k in s.registry ==> t.registry[k] == s.registry[k])
  }

  /** The kind has no live object, and its row, if there is one, is released. */
  predicate KindReleased(s: Sys, t: Sys, k: Kind) {
    && k !in t.live
    && (k in t.registry <==> k in s.registry)
    && (k in s.registry ==> t.registry[k] == s.registry[k].(state := Released))
  }

  /** Resource i was handled as its verdict demands: left alone, or gone in all three stores. */
  predicate HandledAt(s: Sys, t: Sys, i: nat, n: nat)
    requires i < n <= |s.lease.resources| && |t.lease.resources| == |s.lease.resources|
  {
    var r := s.lease.resources[i];
    if LeftAt(s, i, n) then t.lease.resources[i] == r && SameKind(s, t, r.kind)
    else t.lease.resources[i] == r.(state := Released) && KindReleased(s, t, r.kind)
  }

  ghost predicate HandledBelow(s: Sys, n: nat, t: Sys)
    requires n <= |s.lease.resources|
  {
    && |t.lease.resources| == |s.lease.resources|
    && t == s.(lease := s.lease.(resources := t.lease.resources), live := t.live, registry := t.registry)
    && (forall i | 0 <= i < n :: HandledAt(s, t, i, n))
    && (forall i | n <= i < |s.lease.resources| :: t.lease.resources[i] == s.lease.resources[i])
    && (forall k | forall i | 0 <= i < n :: s.lease.resources[i].kind != k :: SameKind(s, t, k))
  }

  lemma SameVerdict(s: Sys, t: Sys, r: Resource)
    requires SameKind(s, t, r.kind) && t.admin == s.admin
    requires t.lease.ResourceName() == s.lease.ResourceName() && t.lease.Marker() == s.lease.Marker()
    ensures VerifyOwned(t, r) == VerifyOwned(s, r)
  {
  }

  /** Releasing one kind leaves the verdicts on the others as they were. */
  lemma ReleaseKeepsVerdicts(s: Sys, i: nat, j: nat)
    requires i < |s.lease.resources| && j < |s.lease.resources| && s.lease.resources[i].kind != s.lease.resources[j].kind
    ensures RefusedAt(Released_(s, i), j) == RefusedAt(s, j)
  {
    SameVerdict(s, Released_(s, i), s.lease.resources[j]);
  }

  /** Releasing the last resource of a pass decides what is left as the rest of the pass sees it. */
  lemma ReleaseKeepsLeft(s: Sys, i: nat, n: nat)
    requires DistinctKinds(s.lease.resources) && i < n < |s.lease.resources| && !RefusedAt(s, n)
    ensures RefusedAt(Released_(s, n), i) == RefusedAt(s, i)
    ensures KeptAt(Released_(s, n), i, n) == KeptAt(s, i, n + 1)
  {
    hide RefusedAt;
    var t := Released_(s, n);
    ReleaseKeepsVerdicts(s, n, i);
    if Blocked(s.live, s.lease.resources[i].kind) && !s.lease.resources[n].kind.Database? {
      assert Blocked(t.live, t.lease.resources[i].kind);
      ReleaseKeepsGoing(s, i, n);
    } else if s.lease.resources[n].kind.Database? {
      assert DatabaseGoes(s, i, n + 1);
    }
  }

  lemma ReleaseKeepsGoing(s: Sys, i: nat, n: nat)
    requires DistinctKinds(s.lease.resources) && i < n < |s.lease.resources| && !s.lease.resources[n].kind.Database?
    ensures DatabaseGoes(Released_(s, n), i, n) == DatabaseGoes(s, i, n + 1)
  {
    hide RefusedAt;
    var t := Released_(s, n);
    forall j | i < j < n
      ensures RefusedAt(t, j) == RefusedAt(s, j) && t.lease.resources[j] == s.lease.resources[j]
    {
      ReleaseKeepsVerdicts(s, n, j);
    }
    if DatabaseGoes(s, i, n + 1) {
      var j :| i < j < n + 1 && s.lease.resources[j].kind.Database? && !RefusedAt(s, j);
      assert j < n && t.lease.resources[j].kind.Database? && !RefusedAt(t, j);
    }
  }

  lemma {:induction false} ReleaseKeepsReports(s: Sys, i: nat, n: nat)
    requires DistinctKinds(s.lease.resources) && i <= n < |s.lease.resources| && !RefusedAt(s, n)
    ensures Reports(Released_(s, n), i, n) == Reports(s, i, n + 1)
  {
    hide Released_, RefusedAt, KeptAt;
    if i > 0 {
      ReleaseKeepsReports(s, i - 1, n);
      ReleaseKeepsLeft(s, i - 1, n);
      ReleasedOthers(s, n, i - 1);
    }
  }

  /** A resource that is left changes nothing for those after it. */
  lemma LeavingKeepsLeft(s: Sys, i: nat, n: nat)
    requires DistinctKinds(s.lease.resources) && i < n < |s.lease.resources| && LeftAt(s, n, n + 1)
    ensures KeptAt(s, i, n) == KeptAt(s, i, n + 1)
  {
    hide RefusedAt;
    if DatabaseGoes(s, i, n + 1) {
      var j :| i < j < n + 1 && s.lease.resources[j].kind.Database? && !RefusedAt(s, j);
      assert j < n;
    }
  }

  lemma {:induction false} LeavingKeepsReports(s: Sys, i: nat, n: nat)
    requires DistinctKinds(s.lease.resources) && i <= n < |s.lease.resources| && LeftAt(s, n, n + 1)
    ensures Reports(s, i, n) == Reports(s, i, n + 1)
  {
    hide RefusedAt, KeptAt;
    if i > 0 {
      LeavingKeepsReports(s, i - 1, n);
      LeavingKeepsLeft(s, i - 1, n);
    }
  }

  lemma ReleasedOthers(s: Sys, i: nat, j: nat)
    requires i < |s.lease.resources| && j < |s.lease.resources| && i != j
    ensures Released_(s, i).lease.resources[j] == s.lease.resources[j]
  {
  }

  lemma ReleasedStaysCleaning(s: Sys, i: nat)
    requires Valid(s.lease) && s.lease.state.Cleaning? && i < |s.lease.resources|
    ensures Valid(Released_(s, i).lease) && Released_(s, i).lease.state.Cleaning?
  {
    hide Valid;
    ReleaseAccepted(s.lease, i);
    AcceptedValid(s.lease, Released_(s, i).lease);
  }

  lemma PastLeft(s: Sys, n: nat, t: Sys)
    requires DistinctKinds(s.lease.resources) && n < |s.lease.resources|
    requires LeftAt(s, n, n + 1) && HandledBelow(s, n, t)
    ensures HandledBelow(s, n + 1, t)
  {
    hide RefusedAt, KeptAt;
    assert SameKind(s, t, s.lease.resources[n].kind);
    var m := n + 1;
    forall i | 0 <= i < m
      ensures HandledAt(s, t, i, m)
    {
      if i < n {
        assert HandledAt(s, t, i, n);
        LeavingKeepsLeft(s, i, n);
      }
    }
    forall k | forall i | 0 <= i < n + 1 :: s.lease.resources[i].kind != k
      ensures SameKind(s, t, k)
    {
      assert forall i | 0 <= i < n :: s.lease.resources[i].kind != k;
    }
  }

  lemma PastRelease(s: Sys, n: nat, t: Sys)
    requires DistinctKinds(s.lease.resources) && n < |s.lease.resources|
    requires !LeftAt(s, n, n + 1) && HandledBelow(Released_(s, n), n, t)
    ensures HandledBelow(s, n + 1, t)
  {
    hide RefusedAt, HandledAt, LeftAt;
    var s1, r := Released_(s, n), s.lease.resources[n];
    var m := n + 1;
    forall i | 0 <= i < n
      ensures HandledAt(s, t, i, m)
    {
      assert HandledAt(s1, t, i, n);
      HandledEarlier(s, n, t, i);
    }
    assert forall i | 0 <= i < n :: s1.lease.resources[i].kind != r.kind;
    assert SameKind(s1, t, r.kind);
    HandledHere(s, n, t);
    forall k | forall i | 0 <= i < n + 1 :: s.lease.resources[i].kind != k
      ensures SameKind(s, t, k)
    {
      assert r.kind != k;
      assert forall i | 0 <= i < n :: s1.lease.resources[i] == s.lease.resources[i];
      assert SameKind(s1, t, k);
    }
  }

  lemma HandledEarlier(s: Sys, n: nat, t: Sys, i: nat)
    requires DistinctKinds(s.lease.resources) && i < n < |s.lease.resources| && |t.lease.resources| == |s.lease.resources|
    requires !LeftAt(s, n, n + 1) && HandledAt(Released_(s, n), t, i, n)
    ensures HandledAt(s, t, i, n + 1)
  {
    hide RefusedAt, KeptAt;
    ReleaseKeepsLeft(s, i, n);
  }

  lemma HandledHere(s: Sys, n: nat, t: Sys)
    requires n < |s.lease.resources| && |t.lease.resources| == |s.lease.resources| && !LeftAt(s, n, n + 1)
    requires SameKind(Released_(s, n), t, s.lease.resources[n].kind)
    requires t.lease.resources[n] == Released_(s, n).lease.resources[n]
    ensures HandledAt(s, t, n, n + 1)
  {
    hide LeftAt;
  }

  lemma {:induction false} ReleaseDownFollowsVerdicts(s: Sys, n: nat)
    requires Valid(s.lease) && s.lease.state.Cleaning? && n <= |s.lease.resources|
    ensures HandledBelow(s, n, ReleaseDown(s, n).0) && ReleaseDown(s, n).1 == Reports(s, n, n)
    ensures Valid(ReleaseDown(s, n).0.lease)
    decreases n
  {
    hide Valid, ReleaseOne, HandledBelow, VerifyOwned, Released_, RefusedAt, KeptAt;
    DistinctIfValid(s.lease);
    if n == 0 {
      NothingHandled(s);
    } else if LeftAt(s, n - 1, n) {
      LeftStops(s, n - 1);
      ReleaseDownFollowsVerdicts(s, n - 1);
      LeavingKeepsReports(s, n - 1, n - 1);
      PastLeft(s, n - 1, ReleaseDown(s, n - 1).0);
    } else {
      NotLeft(s, n - 1);
      ReleaseOneShape(s, n - 1);
      ReleasedStaysCleaning(s, n - 1);
      ReleaseDownFollowsVerdicts(Released_(s, n - 1), n - 1);
      ReleaseKeepsReports(s, n - 1, n - 1);
      PastRelease(s, n - 1, ReleaseDown(Released_(s, n - 1), n - 1).0);
    }
  }

  lemma LeftStops(s: Sys, i: nat)
    requires i < |s.lease.resources| && LeftAt(s, i, i + 1)
    ensures ReleaseOne(s, s.lease.resources[i]) ==
            (s, [Failure(s.lease.resources[i].kind, if RefusedAt(s, i) then Ownership else Remove)])
  {
  }

  lemma NotLeft(s: Sys, i: nat)
    requires i < |s.lease.resources| && !LeftAt(s, i, i + 1)
    ensures !VerifyOwned(s, s.lease.resources[i]).Refused? && !Blocked(s.live, s.lease.resources[i].kind)
  {
  }

  lemma NothingHandled(s: Sys)
    ensures HandledBelow(s, 0, s)
  {
  }

  lemma BeginAccepted(l: Record)
    requires Valid(l) && !l.state.Cleaned?
    ensures Accepts(l, Cleaning_(l))
  {
  }

  lemma CleanedAccepted(l: Record)
    requires Valid(l) && l.state.Cleaning? && AllInState(l.resources, Released)
    ensures Accepts(l, Cleaned_(l))
  {
  }

  lemma FailedAccepted(l: Record, failures: seq<Failure>)
    requires Valid(l) && l.state.Cleaning? && failures != [] && |failures| <= |l.resources|
    requires forall f | f in failures :: f.kind in Kinds(l.resources) && (f.category.Ownership? || f.category.Remove?)
    ensures Accepts(l, Failed_(l, failures))
  {
  }

  /** The whole cleanup, resource by resource and with its report. */
  ghost predicate FollowsVerdicts(s: Sys, t: Sys) {
    var n := |s.lease.resources|;
    && !t.credential && |t.lease.resources| == n
    && (forall i | 0 <= i < n :: HandledAt(s, t, i, n))
    && (forall k | k !in Kinds(s.lease.resources) :: SameKind(s, t, k))
    && (t.lease.state.Cleaned? <==> forall i | 0 <= i < n :: !LeftAt(s, i, n))
    && (!t.lease.state.Cleaned? ==> t.lease.state.CleanupFailed? && t.lease.cleanupErrors == Reports(s, n, n))
  }

  lemma BegunVerdicts(s: Sys, i: nat)
    requires i < |s.lease.resources|
    ensures RefusedAt(s.(lease := Cleaning_(s.lease)), i) == RefusedAt(s, i)
  {
    hide VerifyOwned;
    SameVerdict(s, s.(lease := Cleaning_(s.lease)), s.lease.resources[i]);
  }

  lemma BegunLeft(s: Sys, i: nat, n: nat)
    requires i < n <= |s.lease.resources|
    ensures KeptAt(s.(lease := Cleaning_(s.lease)), i, n) == KeptAt(s, i, n)
  {
    hide RefusedAt;
    var begun := s.(lease := Cleaning_(s.lease));
    forall j | 0 <= j < |s.lease.resources|
      ensures RefusedAt(begun, j) == RefusedAt(s, j)
    {
      BegunVerdicts(s, j);
    }
    if DatabaseGoes(s, i, n) {
      var j :| i < j < n && s.lease.resources[j].kind.Database? && !RefusedAt(s, j);
      assert begun.lease.resources[j].kind.Database? && !RefusedAt(begun, j);
    }
  }

  lemma {:induction false} BegunReports(s: Sys, i: nat, n: nat)
    requires i <= n <= |s.lease.resources|
    ensures Reports(s.(lease := Cleaning_(s.lease)), i, n) == Reports(s, i, n)
  {
    hide RefusedAt, KeptAt;
    if i > 0 {
      BegunReports(s, i - 1, n);
      BegunVerdicts(s, i - 1);
      BegunLeft(s, i - 1, n);
    }
  }

  /**
   Whatever the stores hold, a cleanup that nothing disturbs releases in all stores every
   recorded resource except two kinds, which it leaves alone and reports: what
   verification refuses, as an ownership failure, and an owned role that a live database
   depends on which is refused or has no turn before it, as a failure to remove. It ends
   cleaned exactly when there are none.
   */
  lemma CleanupFollowsVerdicts(s: Sys)
    requires Valid(s.lease) && !s.lease.state.Cleaned?
    ensures FollowsVerdicts(s, Cleanup(s)) && Valid(Cleanup(s).lease)
  {
    hide Valid, Accepts, VerifyOwned, ReleaseDown, RefusedAt, LeftAt, Reports;
    BeginAccepted(s.lease);
    AcceptedValid(s.lease, Cleaning_(s.lease));
    var begun, n := s.(lease := Cleaning_(s.lease)), |s.lease.resources|;
    BegunReports(s, n, n);
    ReleaseDownFollowsVerdicts(begun, n);
    var (released, failures) := ReleaseDown(begun, n);
    if failures == [] {
      AllReleased(begun, released);
      CleanedAccepted(released.lease);
      AcceptedValid(released.lease, Cleaned_(released.lease));
    } else {
      SameKinds(begun, released);
      FailedAccepted(released.lease, failures);
      AcceptedValid(released.lease, Failed_(released.lease, failures));
    }
    HandledAnyway(s, released, Cleanup(s));
  }

  lemma AllReleased(s: Sys, t: Sys)
    requires HandledBelow(s, |s.lease.resources|, t) && Reports(s, |s.lease.resources|, |s.lease.resources|) == []
    ensures AllInState(t.lease.resources, Released)
  {
    hide VerifyOwned, LeftAt, Reports;
    var n := |s.lease.resources|;
    forall i | 0 <= i < n
      ensures t.lease.resources[i].state == Released
    {
      assert HandledAt(s, t, i, n) && !LeftAt(s, i, n);
    }
  }

  lemma SameKinds(s: Sys, t: Sys)
    requires HandledBelow(s, |s.lease.resources|, t)
    ensures Kinds(t.lease.resources) == Kinds(s.lease.resources)
  {
    hide VerifyOwned, LeftAt;
    forall i | 0 <= i < |s.lease.resources|
      ensures t.lease.resources[i].kind == s.lease.resources[i].kind
    {
      assert HandledAt(s, t, i, |s.lease.resources|);
    }
  }

  /** The state, the report and the credential of the lease do not matter for the objects. */
  lemma HandledAnyway(s: Sys, released: Sys, t: Sys)
    requires HandledBelow(s.(lease := Cleaning_(s.lease)), |s.lease.resources|, released)
    requires t.lease.resources == released.lease.resources && t.live == released.live && t.registry == released.registry
    ensures forall i | 0 <= i < |s.lease.resources| :: HandledAt(s, t, i, |s.lease.resources|)
    ensures forall k | k !in Kinds(s.lease.resources) :: SameKind(s, t, k)
  {
    hide VerifyOwned, RefusedAt, KeptAt;
    var begun, n := s.(lease := Cleaning_(s.lease)), |s.lease.resources|;
    forall i | 0 <= i < n
      ensures HandledAt(s, t, i, n)
    {
      assert HandledAt(begun, released, i, n);
      BegunVerdicts(s, i);
      BegunLeft(s, i, n);
    }
    forall k | k !in Kinds(s.lease.resources)
      ensures SameKind(s, t, k)
    {
      assert forall i | 0 <= i < n :: s.lease.resources[i].kind in Kinds(s.lease.resources);
      assert SameKind(begun, released, k);
    }
  }

  /** In every run the role is planned before the database. */
  lemma {:induction false} RoleFirstInEveryRun(run: seq<Sys>, acts: seq<Action>, i: nat)
    requires IsRun(run, acts) && i < |run|
    ensures RoleFirst(run[i].lease.resources)
  {
    hide Next, Valid;
    if i > 0 {
      RoleFirstInEveryRun(run, acts, i - 1);
      assert StepAt(run, acts, i - 1);
      OrderStep(run[i - 1], acts[i - 1], run[i]);
    }
  }

  /**
   After every run an owned role is left exactly when a live database depends on it that
   is refused or not recorded: a database that is not refused goes first.
   */
  lemma RoleIsKeptByRefusedDatabase(run: seq<Sys>, acts: seq<Action>, i: nat, k: nat)
    requires IsRun(run, acts) && i < |run| && k < |run[i].lease.resources| && run[i].lease.resources[k].kind.Role?
    ensures var s := run[i];
      KeptAt(s, k, |s.lease.resources|) <==>
        && !RefusedAt(s, k) && Blocked(s.live, Role)
        && forall j | 0 <= j < |s.lease.resources| && s.lease.resources[j].kind.Database? :: RefusedAt(s, j)
  {
    hide RefusedAt, Next, Valid;
    RoleFirstInEveryRun(run, acts, i);
    RunInvariant(run, acts, i);
    var s := run[i];
    DistinctIfValid(s.lease);
    forall j | 0 <= j < |s.lease.resources| && s.lease.resources[j].kind.Database?
      ensures k < j
    {
      assert RoleBelow(s.lease.resources, j);
    }
  }

  /** In particular after every run, whatever other sessions did in it. */
  lemma CleanupAfterAnyRun(run: seq<Sys>, acts: seq<Action>, i: nat)
    requires IsRun(run, acts) && i < |run| && !run[i].lease.state.Cleaned?
    ensures FollowsVerdicts(AtRest(run[i]), Cleanup(AtRest(run[i]))) && Valid(Cleanup(AtRest(run[i])).lease)
  {
    hide Valid, FollowsVerdicts, Cleanup;
    RunInvariant(run, acts, i);
    CleanupFollowsVerdicts(AtRest(run[i]));
  }
}
