/**
 The durable record of one disposable-database allocation: what makes a record
 acceptable, which saves may follow which, and what no sequence of accepted
 saves can undo.
 */
module LeaseRecords {

  /** Text, with the generated forms told apart: `autosql_test_<case>` and `<version>:<run>:<case>`. */
  datatype Label = CaseName(caseID: string) | CaseMarker(runID: string, case_: string) | Text(text: string)

  datatype Version = LeaseV1 | OtherVersion(text: string)

  /** The reference is absent, `connection.url`, or something else. */
  datatype CredentialRef = NoCredential | ConnectionFile | OtherRef(text: string)

  datatype Image = NoImage | Sha256(digest: string) | OtherImage(text: string)

  datatype LeaseState =
    Allocating | Ready | Running | Cleaning | CleanupFailed | Cleaned | OtherState(text: string)

  datatype Kind = Role | Database | Container | Credentials | OtherKind(text: string)

  datatype ResourceState = Planned | Acquired | Released | OtherResourceState(text: string)

  datatype Category = Ownership | Connection | Timeout | Remove | Persist | OtherCategory(text: string)

  datatype Mode = ExistingAdmin | ContainerMode | OtherMode(text: string)

  /** The textual cleanup timeout: absent, a parsed duration, or not a duration. */
  datatype Budget = DefaultBudget | Parsed(nanoseconds: int) | Unparsable

  /** `addressValid` is the answer of the pattern checks on addresses, images and references for `mode`. */
  datatype Factory = Factory(mode: Mode, name: string, addressValid: bool, postgresMajor: int, cleanupTimeout: Budget)

  datatype Resource = Resource(
    kind: Kind, name: Label, marker: Label, state: ResourceState, oid: nat, id: string, imageID: Image)

  datatype Failure = Failure(kind: Kind, category: Category)

  /** Instants are integers and 0 is the zero time. */
  datatype Record = Record(
    version: Version,
    runID: string,
    caseID: string,
    factory: Factory,
    state: LeaseState,
    resources: seq<Resource>,
    credentialRef: CredentialRef,
    createdAt: int,
    deadline: int,
    cleanupErrors: seq<Failure>)
  {
    function ResourceName(): Label { CaseName(caseID) }

    function Marker(): Label { CaseMarker(runID, caseID) }
  }

  predicate Hex(c: char) { '0' <= c <= '9' || 'a' <= c <= 'f' }

  predicate HexText(s: string, n: nat) { |s| == n && forall i | 0 <= i < |s| :: Hex(s[i]) }

  predicate ImageDigest(i: Image) { i.Sha256? && HexText(i.digest, 64) }

  predicate ValidIdentity(l: Record) {
    && l.version.LeaseV1?
    && HexText(l.runID, 32)
    && HexText(l.caseID, 32)
    && l.createdAt != 0
    && l.createdAt < l.deadline
  }

  predicate ValidFactory(f: Factory) {
    && f.name != ""
    && |f.name| <= 128
    && 14 <= f.postgresMajor <= 18
    && (f.cleanupTimeout.DefaultBudget? || (f.cleanupTimeout.Parsed? && f.cleanupTimeout.nanoseconds > 0))
    && !f.mode.OtherMode?
    && f.addressValid
  }

  predicate ValidResource(r: Resource) {
    && !r.state.OtherResourceState?
    && (r.id == "" || HexText(r.id, 64))
    && match r.kind
       case Role => r.id == "" && r.imageID.NoImage? && (r.state.Acquired? ==> r.oid != 0)
       case Database => r.id == "" && r.imageID.NoImage? && (r.state.Acquired? ==> r.oid != 0)
       case Container => r.oid == 0 && ImageDigest(r.imageID) && (r.state.Acquired? ==> r.id != "")
       case _ => false
  }

  function Kinds(rs: seq<Resource>): set<Kind> {
    set i | 0 <= i < |rs| :: rs[i].kind
  }

  predicate DistinctKinds(rs: seq<Resource>) {
    forall i, j | 0 <= i < j < |rs| :: rs[i].kind != rs[j].kind
  }

  predicate ValidFailures(l: Record) {
    && (l.state.CleanupFailed? ==> l.cleanupErrors != [])
    && forall i | 0 <= i < |l.cleanupErrors| ::
         && (l.cleanupErrors[i].kind in Kinds(l.resources) || l.cleanupErrors[i].kind.Credentials?)
         && !l.cleanupErrors[i].category.OtherCategory?
  }

  predicate ValidResources(l: Record) {
    && |l.resources| <= 3
    && |l.cleanupErrors| <= 4
    && DistinctKinds(l.resources)
    && (forall i | 0 <= i < |l.resources| ::
          && l.resources[i].name == l.ResourceName()
          && l.resources[i].marker == l.Marker()
          && ValidResource(l.resources[i]))
    && (l.factory.mode.ExistingAdmin? ==> Container !in Kinds(l.resources))
    && (l.factory.mode.ContainerMode? && (Role in Kinds(l.resources) || Database in Kinds(l.resources)) ==>
          Container in Kinds(l.resources))
    && ValidFailures(l)
  }

  predicate AllInState(rs: seq<Resource>, state: ResourceState) {
    forall i | 0 <= i < |rs| :: rs[i].state == state
  }

  predicate ValidState(l: Record) {
    match l.state
    case Ready => ExecutionReady(l)
    case Running => ExecutionReady(l)
    case Cleaned => l.credentialRef.NoCredential? && l.cleanupErrors == [] && AllInState(l.resources, Released)
    case _ => true
  }

  predicate ExecutionReady(l: Record) {
    && !l.credentialRef.NoCredential?
    && Role in Kinds(l.resources)
    && Database in Kinds(l.resources)
    && l.cleanupErrors == []
    && AllInState(l.resources, Acquired)
  }

  predicate Valid(l: Record) {
    && ValidIdentity(l)
    && !l.state.OtherState?
    && !l.credentialRef.OtherRef?
    && ValidFactory(l.factory)
    && ValidResources(l)
    && ValidState(l)
  }

  /** The resource scan: one pass filling the set of kinds already met. */
  method ScanResources(l: Record) returns (ok: bool, seen: set<Kind>)
    ensures ok <==>
      && |l.resources| <= 3
      && |l.cleanupErrors| <= 4
      && DistinctKinds(l.resources)
      && forall i | 0 <= i < |l.resources| ::
           && l.resources[i].name == l.ResourceName()
           && l.resources[i].marker == l.Marker()
           && ValidResource(l.resources[i])
    ensures ok ==> seen == Kinds(l.resources)
  {
    seen := {};
    if |l.resources| > 3 || |l.cleanupErrors| > 4 {
      return false, seen;
    }
    for i := 0 to |l.resources|
      invariant seen == Kinds(l.resources[..i])
      invariant DistinctKinds(l.resources[..i])
      invariant forall k | 0 <= k < i ::
        && l.resources[k].name == l.ResourceName()
        && l.resources[k].marker == l.Marker()
        && ValidResource(l.resources[k])
    {
      var r := l.resources[i];
      if r.kind in seen || r.name != l.ResourceName() || r.marker != l.Marker() || !ValidResource(r) {
        assert r.kind in seen ==> exists k :: 0 <= k < i && l.resources[k].kind == r.kind;
        return false, seen;
      }
      assert l.resources[..i + 1] == l.resources[..i] + [r];
      seen := seen + {r.kind};
    }
    assert l.resources[..|l.resources|] == l.resources;
    ok := true;
  }

  method ScanFailures(l: Record, seen: set<Kind>) returns (ok: bool)
    requires seen == Kinds(l.resources)
    ensures ok <==> ValidFailures(l)
  {
    if l.state == CleanupFailed && |l.cleanupErrors| == 0 {
      return false;
    }
    for i := 0 to |l.cleanupErrors|
      invariant forall k | 0 <= k < i ::
        && (l.cleanupErrors[k].kind in Kinds(l.resources) || l.cleanupErrors[k].kind.Credentials?)
        && !l.cleanupErrors[k].category.OtherCategory?
    {
      var failure := l.cleanupErrors[i];
      if (failure.kind !in seen && failure.kind != Credentials) || failure.category.OtherCategory? {
        return false;
      }
    }
    ok := true;
  }

  method Validate(l: Record) returns (ok: bool)
    ensures ok <==> Valid(l)
  {
    if !ValidIdentity(l) || l.state.OtherState? {
      return false;
    }
    if l.credentialRef.OtherRef? {
      return false;
    }
    if !ValidFactory(l.factory) {
      return false;
    }
    var scanned, seen := ScanResources(l);
    if !scanned {
      return false;
    }
    if l.factory.mode == ExistingAdmin && Container in seen {
      return false;
    }
    if l.factory.mode == ContainerMode && (Role in seen || Database in seen) && Container !in seen {
      return false;
    }
    var failuresOk := ScanFailures(l, seen);
    ok := failuresOk && ValidState(l);
  }

  predicate Transition(current: LeaseState, next: LeaseState) {
    match current
    case Allocating => next.Allocating? || next.Ready? || next.Cleaning?
    case Ready => next.Running? || next.Cleaning?
    case Running => next.Cleaning?
    case Cleaning => next.Cleaning? || next.Cleaned? || next.CleanupFailed?
    case CleanupFailed => next.Cleaning?
    case Cleaned => false
    case OtherState(_) => false
  }

  predicate SameAllocation(a: Record, b: Record) {
    && a.version == b.version
    && a.runID == b.runID
    && a.caseID == b.caseID
    && a.factory == b.factory
    && a.createdAt == b.createdAt
    && a.deadline == b.deadline
  }

  predicate ResourceAdvances(old_: Resource, next: Resource) {
    && old_.kind == next.kind
    && old_.name == next.name
    && old_.marker == next.marker
    && old_.imageID == next.imageID
    && match old_.state
       case Planned => true
       case Acquired => !next.state.Planned? && old_.oid == next.oid && old_.id == next.id
       case Released => old_ == next
       case OtherResourceState(_) => false
  }

  predicate ResourcesAdvance(current: Record, next: Record) {
    && |current.resources| <= |next.resources|
    && (|current.resources| < |next.resources| ==> current.state.Allocating? && next.state.Allocating?)
    && forall i | 0 <= i < |current.resources| :: ResourceAdvances(current.resources[i], next.resources[i])
  }

  /** Exactly what a save demands of the record that replaces the current one. */
  predicate Accepts(current: Record, next: Record) {
    && Transition(current.state, next.state)
    && SameAllocation(current, next)
    && Valid(next)
    && ResourcesAdvance(current, next)
  }

  /** A lease file's successive contents, oldest first. */
  ghost predicate SaveHistory(h: seq<Record>) {
    && h != []
    && Valid(h[0])
    && forall i | 0 < i < |h| :: Accepts(h[i - 1], h[i])
  }

  predicate CleanupPhase(s: LeaseState) {
    s.Cleaning? || s.CleanupFailed? || s.Cleaned?
  }

  function Rank(s: ResourceState): int {
    match s
    case Planned => 0
    case Acquired => 1
    case Released => 2
    case OtherResourceState(_) => 3
  }

  /** The lasting relation between one resource slot and its later contents. */
  predicate NeverBackward(old_: Resource, later: Resource) {
    && old_.kind == later.kind
    && old_.name == later.name
    && old_.marker == later.marker
    && old_.imageID == later.imageID
    && Rank(old_.state) <= Rank(later.state)
    && (old_.state.Acquired? ==> old_.oid == later.oid && old_.id == later.id)
    && (old_.state.Released? ==> old_ == later)
  }

  /** What the earlier record of a history fixes about every later one. */
  ghost predicate Settles(early: Record, late: Record) {
    && SameAllocation(early, late)
    && |early.resources| <= |late.resources|
    && (!early.state.Allocating? ==> |early.resources| == |late.resources| && !late.state.Allocating?)
    && (forall k | 0 <= k < |early.resources| :: NeverBackward(early.resources[k], late.resources[k]))
    && (CleanupPhase(early.state) ==> CleanupPhase(late.state))
    && (late.state.Cleaned? ==> AllInState(late.resources, Released) && late.credentialRef.NoCredential?)
  }

  lemma {:induction false} HistoryRecordsValid(h: seq<Record>, i: nat)
    requires SaveHistory(h) && i < |h|
    ensures Valid(h[i])
  {
    if i > 0 {
      assert Accepts(h[i - 1], h[i]);
    }
  }

  lemma SettlesStep(a: Record, b: Record, c: Record)
    requires Settles(a, b) && Accepts(b, c) && Valid(b)
    ensures Settles(a, c)
  {
    forall k | 0 <= k < |a.resources|
      ensures NeverBackward(a.resources[k], c.resources[k])
    {
      assert NeverBackward(a.resources[k], b.resources[k]);
      assert ResourceAdvances(b.resources[k], c.resources[k]);
      assert ValidResource(b.resources[k]) && ValidResource(c.resources[k]);
    }
  }

  /** However many saves succeed, what an earlier record settled stays settled, and cleaned is final. */
  lemma {:induction false} HistoryNeverGoesBack(h: seq<Record>, i: nat, j: nat)
    requires SaveHistory(h) && i <= j < |h|
    ensures Settles(h[i], h[j])
    ensures h[i].state.Cleaned? ==> i == j
    decreases j - i
  {
    HistoryRecordsValid(h, i);
    if i < j {
      HistoryNeverGoesBack(h, i, j - 1);
      HistoryRecordsValid(h, j - 1);
      assert Accepts(h[j - 1], h[j]);
      SettlesStep(h[i], h[j - 1], h[j]);
    }
  }

  /** A new resource appears only in a save that starts and ends while allocating. */
  lemma {:induction false} ResourcesAppearOnlyWhileAllocating(h: seq<Record>, i: nat, j: nat)
    requires SaveHistory(h) && i <= j < |h|
    requires |h[i].resources| < |h[j].resources|
    ensures h[i].state.Allocating?
    ensures exists k :: i < k <= j && h[k - 1].state.Allocating? && h[k].state.Allocating?
                        && |h[k - 1].resources| < |h[k].resources|
    decreases j - i
  {
    HistoryNeverGoesBack(h, i, j);
    assert Accepts(h[j - 1], h[j]);
    if |h[i].resources| < |h[j - 1].resources| {
      ResourcesAppearOnlyWhileAllocating(h, i, j - 1);
    }
  }
}
