/** When the recheck before a mutation stands in for the complete gate. */
module ApprovalRecheck {
  import opened Options
  import opened StringOrder
  import opened ApprovalEvents
  import opened ApprovalGate

  // ---------- a condition on the request and the authority's answers ----------

  /** The instants at which some approval begins or ends. */
  function Instants(auth: Authority, req: Request): set<int> {
    (set i | 0 <= i < |req.approvals| && auth.verify(req.approvals[i]).Some? :: auth.verify(req.approvals[i]).value.approvedAt)
    + (set i | 0 <= i < |req.approvals| && auth.verify(req.approvals[i]).Some? :: auth.verify(req.approvals[i]).value.expiresAt)
  }

  /** The roles somebody has in some approval; a requirement cannot name a blank one. */
  function RolesIn(auth: Authority, req: Request): set<string> {
    set i, k | 0 <= i < |req.approvals| && auth.verify(req.approvals[i]).Some?
               && 0 <= k < |auth.verify(req.approvals[i]).value.identity.roles|
               && !Blank(auth.verify(req.approvals[i]).value.identity.roles[k])
             :: auth.verify(req.approvals[i]).value.identity.roles[k]
  }

  /** The distinct approvers with all of these roles. */
  function EligibleWith(valid: map<string, Verified>, roles: set<string>): set<string> {
    set id | id in valid && roles <= Members(valid[id].identity.roles)
  }

  function ValidAt(auth: Authority, req: Request, at: int): map<string, Verified> {
    ValidApprovals(auth, req, at, |req.approvals|)
  }

  /** If all who have the roles at first are fresh later, no fewer have them later. */
  predicate KeepsCount(auth: Authority, req: Request, at: int, later: int, roles: set<string>) {
    var before := EligibleWith(ValidAt(auth, req, at), roles);
    (forall id | id in before :: id in ValidAt(auth, req, at) && later < ValidAt(auth, req, at)[id].expiresAt) ==>
      |before| <= |EligibleWith(ValidAt(auth, req, later), roles)|
  }

  /** The same for finitely many instants and sets of roles, which the request and the authority name. */
  predicate CountsKept(auth: Authority, req: Request) {
    forall p, q, roles: set<string> |
      p in Instants(auth, req) && q in Instants(auth, req) && p <= q && Live(req.plan, q) && roles <= RolesIn(auth, req) ::
      KeepsCount(auth, req, p, q, roles)
  }

  // ---------- those instants and roles are enough ----------

  lemma {:induction false} LatestOf(ts: set<int>, at: int) returns (found: bool, p: int)
    ensures found ==> p in ts && p <= at && forall t | t in ts && t <= at :: t <= p
    ensures !found ==> forall t | t in ts :: at < t
  {
    if t :| t in ts {
      found, p := LatestOf(ts - {t}, at);
      assert forall u | u in ts :: u == t || u in ts - {t};
      if t <= at && (!found || p < t) {
        found, p := true, t;
      }
    } else {
      found, p := false, at;
    }
  }

  lemma InstantsOf(auth: Authority, req: Request, i: nat)
    requires i < |req.approvals| && auth.verify(req.approvals[i]).Some?
    ensures auth.verify(req.approvals[i]).value.approvedAt in Instants(auth, req)
    ensures auth.verify(req.approvals[i]).value.expiresAt in Instants(auth, req)
  {
  }

  /** No approval begins or ends after p up to `at`. */
  ghost predicate Settled(auth: Authority, req: Request, p: int, at: int) {
    p <= at && forall t | t in Instants(auth, req) && t <= at :: t <= p
  }

  lemma {:induction false} SameValid(auth: Authority, req: Request, p: int, at: int, n: nat)
    requires n <= |req.approvals| && Settled(auth, req, p, at)
    ensures ValidApprovals(auth, req, p, n) == ValidApprovals(auth, req, at, n)
  {
    hide Instants;
    if n > 0 {
      SameValid(auth, req, p, at, n - 1);
      if auth.verify(req.approvals[n - 1]).Some? {
        InstantsOf(auth, req, n - 1);
      }
    }
  }

  lemma {:induction false} NoneValid(auth: Authority, req: Request, at: int, n: nat)
    requires n <= |req.approvals| && forall t | t in Instants(auth, req) :: at < t
    ensures ValidApprovals(auth, req, at, n) == map[]
  {
    hide Instants;
    if n > 0 {
      NoneValid(auth, req, at, n - 1);
      if auth.verify(req.approvals[n - 1]).Some? {
        InstantsOf(auth, req, n - 1);
      }
    }
  }

  /** Whoever has the roles has them in some approval. */
  lemma RolesAreKnown(auth: Authority, req: Request, at: int, roles: set<string>, id: string)
    requires id in EligibleWith(ValidAt(auth, req, at), roles) && forall x | x in roles :: !Blank(x)
    ensures roles <= RolesIn(auth, req)
  {
    hide ValidApprovals, Current, Blank;
    var i := CountingApproval(auth, req, at, id);
    CountsVerified(auth, req, i, at);
    var got := auth.verify(req.approvals[i]).value.identity.roles;
    forall x | x in roles
      ensures x in RolesIn(auth, req)
    {
      assert x in Members(got);
      var k :| 0 <= k < |got| && got[k] == x;
    }
  }

  lemma CountsVerified(auth: Authority, req: Request, i: nat, at: int)
    requires i < |req.approvals| && Counts(auth, req, i, at)
    ensures auth.verify(req.approvals[i]).Some?
  {}

  /** The condition covers every pair of instants and every set of roles. */
  lemma AllCountsKept(auth: Authority, req: Request, at: int, later: int, roles: set<string>)
    requires CountsKept(auth, req) && at <= later && Live(req.plan, later) && forall x | x in roles :: !Blank(x)
    ensures KeepsCount(auth, req, at, later, roles)
  {
    hide ValidApprovals, Blank, Instants, RolesIn;
    var before := EligibleWith(ValidAt(auth, req, at), roles);
    var found, p := LatestOf(Instants(auth, req), at);
    if !found {
      NoneValid(auth, req, at, |req.approvals|);
      assert before == {};
    } else if before != {} {
      var id :| id in before;
      RolesAreKnown(auth, req, at, roles, id);
      var found', q := LatestOf(Instants(auth, req), later);
      SameValid(auth, req, p, at, |req.approvals|);
      SameValid(auth, req, q, later, |req.approvals|);
      assert KeepsCount(auth, req, p, q, roles);
    }
  }

  lemma SameEligible(valid: map<string, Verified>, r: Requirement)
    ensures EligibleFor(valid, r) == EligibleWith(valid, Members(r.roles))
  {
    forall id | id in valid
      ensures HasAllRoles(valid[id].identity.roles, r.roles) <==> Members(r.roles) <= Members(valid[id].identity.roles)
    {
      if Members(r.roles) <= Members(valid[id].identity.roles) {
        forall i | 0 <= i < |r.roles|
          ensures r.roles[i] in valid[id].identity.roles
        {
          assert r.roles[i] in Members(r.roles);
        }
      }
    }
  }

  // ---------- the condition suffices ----------

  /** A requirement met by approvers who are all still fresh is still met. */
  lemma StillSatisfied(g: Gate, req: Request, d: Decision, at: int, later: int, i: nat)
    requires g.authority.Some? && CountsKept(g.authority.value, req) && at <= later
    requires Records(g, req, at, d) && !d.emergency && Fresh(req, d, later)
    requires i < |Requirements(g, req)| && Satisfied(AllValid(g, req, at), req.plan.risk, Requirements(g, req)[i])
    ensures Satisfied(AllValid(g, req, later), req.plan.risk, Requirements(g, req)[i])
  {
    hide ValidApprovals, Increasing, HasAllRoles, EligibleFor, CountsKept, Blank;
    var r := Requirements(g, req)[i];
    if r.minimumRisk <= req.plan.risk {
      var auth, roles := g.authority.value, Members(r.roles);
      SameEligible(AllValid(g, req, at), r);
      SameEligible(AllValid(g, req, later), r);
      forall x | x in roles
        ensures !Blank(x)
      {
        var k :| 0 <= k < |r.roles| && r.roles[k] == x;
      }
      AllCountsKept(auth, req, at, later, roles);
      forall id | id in EligibleWith(ValidAt(auth, req, at), roles)
        ensures later < ValidAt(auth, req, at)[id].expiresAt
      {
        assert CountedFor(g, req, at, |Requirements(g, req)|, id);
        assert id in Members(d.approvers);
        var k :| 0 <= k < |d.approvers| && d.approvers[k] == id;
      }
    }
  }

  /** Then whoever was authorized and passes the recheck later would pass the complete gate later. */
  lemma FreshIsAuthorized(g: Gate, req: Request, d: Decision, at: int, later: int)
    requires Authorized(g, req, at, false) && at <= later && (req.override.Some? || CountsKept(g.authority.value, req))
    requires d.emergency <==> req.override.Some?
    requires !d.emergency ==> Records(g, req, at, d)
    requires Fresh(req, d, later)
    ensures Authorized(g, req, later, false)
  {
    hide Open, Records, Satisfied, AllValid, CountsKept, OverrideGranted;
    OpenHasAuthority(g, req);
    if req.override.None? {
      forall i | 0 <= i < |Requirements(g, req)|
        ensures Satisfied(AllValid(g, req, later), req.plan.risk, Requirements(g, req)[i])
      {
        StillSatisfied(g, req, d, at, later, i);
      }
    }
  }

  /** For this authority and request the recheck stands in for the gate, under every policy. */
  ghost predicate RecheckSuffices(auth: Authority, req: Request) {
    forall g: Gate, at: int, later: int, d: Decision | g.authority == Some(auth) && at <= later ::
      Passes(g, req, at, later, d) ==> Authorized(g, req, later, false)
  }

  /** Authorized at first, recorded as the gate records it, and fresh later. */
  ghost predicate Passes(g: Gate, req: Request, at: int, later: int, d: Decision)
    requires g.authority.Some?
  {
    && Authorized(g, req, at, false) && d.emergency == req.override.Some?
    && (!d.emergency ==> Records(g, req, at, d)) && Fresh(req, d, later)
  }

  lemma CountsKeptSuffices(auth: Authority, req: Request)
    requires req.override.Some? || CountsKept(auth, req)
    ensures RecheckSuffices(auth, req)
  {
    hide Authorized, Records, CountsKept, Fresh;
    forall g: Gate, at: int, later: int, d: Decision | g.authority == Some(auth) && at <= later && Passes(g, req, at, later, d)
      ensures Authorized(g, req, later, false)
    {
      FreshIsAuthorized(g, req, d, at, later);
    }
  }

  // ---------- the condition is necessary ----------

  /** Everything the gate wants of a request apart from policy, approvals and time. */
  predicate Admissible(auth: Authority, req: Request) {
    && !Blank(req.plan.digest) && !Blank(req.plan.environment) && !Blank(req.plan.author) && !Blank(req.requestedBy)
    && req.plan.author != req.requestedBy && RISK_LOW <= req.plan.risk <= RISK_CRITICAL
    && Trusted(auth, req.plan.author) && Trusted(auth, req.requestedBy)
  }

  /** The policy with one requirement. */
  function PolicyOf(auth: Authority, req: Request, r: Requirement): Gate {
    Gate(map[req.plan.environment := EnvironmentPolicy(true, [r])], Some(auth))
  }

  lemma OneRequirement(auth: Authority, req: Request, r: Requirement, at: int)
    requires Admissible(auth, req) && req.override.None? && Live(req.plan, at) && WellFormed(r) && r.minimumRisk == RISK_LOW
    ensures var g := PolicyOf(auth, req, r);
      && Requirements(g, req) == [r] && AllValid(g, req, at) == ValidAt(auth, req, at)
      && (Authorized(g, req, at, false) <==> |EligibleFor(ValidAt(auth, req, at), r)| >= r.approverCount)
  {
    hide ValidApprovals, Blank, EligibleFor;
    var g := PolicyOf(auth, req, r);
    assert Open(g, req);
    assert Authorized(g, req, at, false) <==> Satisfied(AllValid(g, req, at), req.plan.risk, Requirements(g, req)[0]);
  }

  /** The decision on such a policy. */
  ghost function DecisionOf(auth: Authority, req: Request, r: Requirement, at: int): Decision {
    var valid := ValidAt(auth, req, at);
    var ids := EligibleFor(valid, r);
    Decision(true, false, Sorted(ids), NoReason, map id | id in ids && id in valid :: valid[id].expiresAt)
  }

  lemma DecisionRecords(auth: Authority, req: Request, r: Requirement, at: int)
    requires Requirements(PolicyOf(auth, req, r), req) == [r] && r.minimumRisk <= req.plan.risk
    ensures Records(PolicyOf(auth, req, r), req, at, DecisionOf(auth, req, r, at))
  {
    hide ValidApprovals, Sorted, HasAllRoles;
    var g, d := PolicyOf(auth, req, r), DecisionOf(auth, req, r, at);
    var ids := EligibleFor(ValidAt(auth, req, at), r);
    assert Members(d.approvers) == ids;
    forall id
      ensures id in Members(d.approvers) <==> CountedFor(g, req, at, 1, id)
    {
      if id in ids {
        assert Requirements(g, req)[0].minimumRisk <= req.plan.risk && id in EligibleFor(AllValid(g, req, at), Requirements(g, req)[0]);
      }
    }
    forall id | id in d.approvers
      ensures id in ids
    {
      assert id in Members(d.approvers);
    }
  }

  /** The policy that asks for as many as have these roles at first. */
  function ExactPolicy(auth: Authority, req: Request, at: int, roles: seq<string>): Requirement {
    Requirement(RISK_LOW, |EligibleWith(ValidAt(auth, req, at), Members(roles))|, roles)
  }

  lemma LostCountBreaksRecheck(auth: Authority, req: Request, p: int, q: int, roles: set<string>)
    requires Admissible(auth, req) && req.override.None? && p <= q && Live(req.plan, q)
    requires (forall x | x in roles :: !Blank(x)) && !KeepsCount(auth, req, p, q, roles)
    ensures !RecheckSuffices(auth, req)
  {
    hide ValidApprovals, Blank, HasAllRoles, EligibleFor, Sorted, Admissible, Increasing;
    var names := Sorted(roles);
    var r := ExactPolicy(auth, req, p, names);
    assert WellFormed(r) by { NamesNotBlank(names, roles); }
    SameEligible(ValidAt(auth, req, p), r);
    SameEligible(ValidAt(auth, req, q), r);
    OneRequirement(auth, req, r, p);
    OneRequirement(auth, req, r, q);
    assert r.minimumRisk <= req.plan.risk by { AdmissibleRisk(auth, req); }
    DecisionRecords(auth, req, r, p);
    var g, d := PolicyOf(auth, req, r), DecisionOf(auth, req, r, p);
    assert Fresh(req, d, q) by { DecisionFresh(auth, req, r, p, q); }
    hide Authorized, Records, Fresh;
    assert Passes(g, req, p, q, d) && !Authorized(g, req, q, false);
  }

  lemma NamesNotBlank(names: seq<string>, roles: set<string>)
    requires Members(names) == roles && forall x | x in roles :: !Blank(x)
    ensures forall i | 0 <= i < |names| :: !Blank(names[i])
  {
    hide Blank;
    forall i | 0 <= i < |names|
      ensures !Blank(names[i])
    {
      assert names[i] in Members(names);
    }
  }

  lemma AdmissibleRisk(auth: Authority, req: Request)
    requires Admissible(auth, req)
    ensures RISK_LOW <= req.plan.risk
  {}

  lemma DecisionFresh(auth: Authority, req: Request, r: Requirement, at: int, later: int)
    requires Live(req.plan, later)
    requires forall id | id in EligibleFor(ValidAt(auth, req, at), r) ::
               id in ValidAt(auth, req, at) && later < ValidAt(auth, req, at)[id].expiresAt
    ensures Fresh(req, DecisionOf(auth, req, r, at), later)
  {
    hide ValidApprovals, Sorted, EligibleFor;
    var d := DecisionOf(auth, req, r, at);
    forall i | 0 <= i < |d.approvers|
      ensures d.approvers[i] in d.expiresAt && later < d.expiresAt[d.approvers[i]]
    {
      assert d.approvers[i] in Members(d.approvers);
    }
  }

  lemma InadmissibleIsDenied(auth: Authority, req: Request)
    requires !Admissible(auth, req)
    ensures RecheckSuffices(auth, req)
  {
    hide Blank, Records, Fresh;
  }

  /**
   For every authority and request, with any number of approvers and any expiry of the
   plan: the recheck suffices under every policy if and only if the request overrides the
   approvals, is never admitted, or never loses count of the approvers with some roles
   while all of them are fresh. The last can be computed from the request and the
   authority's answers.
   */
  lemma RecheckSufficesIff(auth: Authority, req: Request)
    ensures RecheckSuffices(auth, req) <==> req.override.Some? || !Admissible(auth, req) || CountsKept(auth, req)
  {
    hide RecheckSuffices, Admissible, KeepsCount;
    if req.override.Some? || CountsKept(auth, req) {
      CountsKeptSuffices(auth, req);
    } else if !Admissible(auth, req) {
      InadmissibleIsDenied(auth, req);
    } else {
      var p, q, roles :| p in Instants(auth, req) && q in Instants(auth, req) && p <= q && Live(req.plan, q)
                         && roles <= RolesIn(auth, req) && !KeepsCount(auth, req, p, q, roles);
      LostCountBreaksRecheck(auth, req, p, q, roles);
    }
  }

  // ---------- approvers who keep their roles ----------

  /** If no approval takes over without the roles it replaces, no count is lost. */
  lemma NeverDowngradedKeepsCounts(auth: Authority, req: Request)
    requires NeverDowngraded(auth, req)
    ensures CountsKept(auth, req)
  {
    hide ValidApprovals, NeverDowngraded, Instants, RolesIn;
    forall p, q, roles: set<string> |
      p in Instants(auth, req) && q in Instants(auth, req) && p <= q && Live(req.plan, q) && roles <= RolesIn(auth, req)
      ensures KeepsCount(auth, req, p, q, roles)
    {
      NoDowngradeKeepsRoles(auth, req, p, q);
      RolesKeepCount(auth, req, p, q, roles);
    }
  }

  lemma RolesKeepCount(auth: Authority, req: Request, at: int, later: int, roles: set<string>)
    requires KeepsRoles(auth, req, at, later)
    ensures KeepsCount(auth, req, at, later, roles)
  {
    hide ValidApprovals;
    var before, after := EligibleWith(ValidAt(auth, req, at), roles), EligibleWith(ValidAt(auth, req, later), roles);
    if forall id | id in before :: later < ValidAt(auth, req, at)[id].expiresAt {
      forall id | id in before
        ensures id in after
      {
        var v, w := ValidAt(auth, req, at)[id], ValidAt(auth, req, later)[id];
        assert Members(v.identity.roles) <= Members(w.identity.roles) by {
          forall x | x in Members(v.identity.roles)
            ensures x in Members(w.identity.roles)
          {
            var k :| 0 <= k < |v.identity.roles| && v.identity.roles[k] == x;
          }
        }
      }
      SubsetSize(before, after);
    }
  }

  predicate NoBlankRoles(auth: Authority, req: Request) {
    forall i | 0 <= i < |req.approvals| && auth.verify(req.approvals[i]).Some? ::
      forall k | 0 <= k < |auth.verify(req.approvals[i]).value.identity.roles| ::
        !Blank(auth.verify(req.approvals[i]).value.identity.roles[k])
  }

  predicate OneApprover(req: Request, id: string) { forall i | 0 <= i < |req.approvals| :: req.approvals[i].approver == id }

  lemma {:induction false} OnlyTheApprover(auth: Authority, req: Request, at: int, n: nat, id: string)
    requires OneApprover(req, id) && n <= |req.approvals|
    ensures ValidApprovals(auth, req, at, n).Keys <= {id}
  {
    hide Current;
    if n > 0 {
      OnlyTheApprover(auth, req, at, n - 1, id);
      assert req.approvals[n - 1].approver == id;
    }
  }

  /** With one approver there is nobody else to make up for a lost role. */
  lemma DowngradeLosesCount(auth: Authority, req: Request, id: string, i: nat, j: nat, m: int, n: int)
    requires OneApprover(req, id) && NoBlankRoles(auth, req) && req.plan.expiresAt.None?
    requires i < j < |req.approvals| && Downgrades(auth, req, i, j, m, n)
    ensures !CountsKept(auth, req)
  {
    hide ValidApprovals, Blank, NoBlankRoles, OneApprover;
    var v, w := auth.verify(req.approvals[i]).value, auth.verify(req.approvals[j]).value;
    var k :| 0 <= k < |v.identity.roles| && v.identity.roles[k] !in w.identity.roles;
    var role, p, q := v.identity.roles[k], BeginOf(auth, req, i, m), BeginOf(auth, req, j, n);
    OneIsValid(auth, req, id, i, p);
    OneIsValid(auth, req, id, j, q);
    assert EligibleWith(ValidAt(auth, req, p), {role}) == {id} by { assert role in Members(v.identity.roles); }
    assert EligibleWith(ValidAt(auth, req, q), {role}) == {} by { assert role !in Members(w.identity.roles); }
    assert !KeepsCount(auth, req, p, q, {role});
    BeginIsInstant(auth, req, i, m);
    BeginIsInstant(auth, req, j, n);
    assert role in RolesIn(auth, req) by { assert !Blank(role) by { NotBlankRole(auth, req, i, k); } }
  }

  lemma NotBlankRole(auth: Authority, req: Request, i: nat, k: nat)
    requires NoBlankRoles(auth, req) && i < |req.approvals| && auth.verify(req.approvals[i]).Some?
    requires k < |auth.verify(req.approvals[i]).value.identity.roles|
    ensures !Blank(auth.verify(req.approvals[i]).value.identity.roles[k])
  {}

  lemma OneIsValid(auth: Authority, req: Request, id: string, i: nat, at: int)
    requires OneApprover(req, id) && i < |req.approvals| && Counts(auth, req, i, at)
    ensures ValidAt(auth, req, at) == map[id := auth.verify(req.approvals[i]).value]
  {
    hide ValidApprovals;
    OnlyTheApprover(auth, req, at, |req.approvals|, id);
    ValidIsLast(auth, req, at, |req.approvals|, i);
  }

  lemma BeginIsInstant(auth: Authority, req: Request, i: nat, m: int)
    requires i < |req.approvals| && auth.verify(req.approvals[i]).Some?
    ensures BeginOf(auth, req, i, m) in Instants(auth, req)
  {
    hide Instants;
    InstantsOf(auth, req, i);
    if 0 <= m < |req.approvals| && auth.verify(req.approvals[m]).Some? {
      InstantsOf(auth, req, m);
    }
  }

  /** For one approver and a plan that does not expire, losing count is being downgraded. */
  lemma OneApproverIff(auth: Authority, req: Request, id: string)
    requires OneApprover(req, id) && NoBlankRoles(auth, req) && req.plan.expiresAt.None?
    ensures CountsKept(auth, req) <==> NeverDowngraded(auth, req)
    ensures Admissible(auth, req) && req.override.None? ==> (RecheckSuffices(auth, req) <==> NeverDowngraded(auth, req))
  {
    hide OneApprover, NoBlankRoles, Downgrades, RecheckSuffices, CountsKept, Admissible;
    if NeverDowngraded(auth, req) {
      NeverDowngradedKeepsCounts(auth, req);
    } else {
      var i, j, m, n :| 0 <= i < j < |req.approvals| && -1 <= m < |req.approvals| && -1 <= n < |req.approvals| &&
                        Downgrades(auth, req, i, j, m, n);
      DowngradeLosesCount(auth, req, id, i, j, m, n);
    }
    RecheckSufficesIff(auth, req);
  }

  /** An authority that reads another list of roles from one identity's second approval. */
  function TwoFaced(a: Approval): Option<Verified> {
    Some(Verified(Identity(a.approver, if |a.proof| == 1 then ["dba"] else [], false),
                  a.planDigest, a.environment, a.approvedAt, a.expiresAt))
  }

  /** A concrete case: a second approval that takes effect meanwhile replaces the first one's roles. */
  lemma RecheckOutlivesGate()
    ensures exists g: Gate, req: Request, d: Decision, at: int, later: int ::
      && at <= later && Authorized(g, req, at, false) && Records(g, req, at, d) && !d.emergency && Fresh(req, d, later)
      && !Authorized(g, req, later, false)
  {
    var auth := Authority(id => Some(Identity(id, [], false)), TwoFaced);
    var rule := Requirement(RISK_LOW, 1, ["dba"]);
    var g := Gate(map["p" := EnvironmentPolicy(true, [rule])], Some(auth));
    var first := Approval("d", "p", "c", 0, 100, "x");
    var second := Approval("d", "p", "c", 5, 100, "");
    var req := Request(Plan("d", "p", "a", RISK_LOW, None), [first, second], None, "b");
    var d := Decision(true, false, ["c"], NoReason, map["c" := 100]);
    hide Blank, AllValid, EligibleFor, Records, Satisfied, Open;
    OpenGate(g, req, auth);
    OneRole(g, req, auth, first, second, 0);
    OneRole(g, req, auth, first, second, 10);
    assert Requirements(g, req) == [rule];
    RoleThenNone(AllValid(g, req, 0), AllValid(g, req, 10), rule);
    Inadmissible(g, req, d, rule);
    assert Authorized(g, req, 0, false) && !Authorized(g, req, 10, false) && Fresh(req, d, 10);
  }

  lemma OpenGate(g: Gate, req: Request, auth: Authority)
    requires g.authority == Some(auth) && forall id :: auth.resolve(id) == Some(Identity(id, [], false))
    requires req.plan.digest == "d" && req.plan.environment == "p" && req.plan.author == "a" && req.requestedBy == "b"
    requires req.plan.risk == RISK_LOW && "p" in g.policy && g.policy["p"].allowed
    ensures Open(g, req)
  {
    NotBlank("d");
    NotBlank("p");
    NotBlank("a");
    NotBlank("b");
  }

  lemma RoleThenNone(before: map<string, Verified>, after: map<string, Verified>, rule: Requirement)
    requires before.Keys == {"c"} == after.Keys && rule.roles == ["dba"]
    requires before["c"].identity.roles == ["dba"] && after["c"].identity.roles == []
    ensures EligibleFor(before, rule) == {"c"} && EligibleFor(after, rule) == {}
  {
    assert rule.roles[0] == "dba" && "dba" !in after["c"].identity.roles;
    assert forall id | id in after :: id == "c";
  }

  lemma Inadmissible(g: Gate, req: Request, d: Decision, rule: Requirement)
    requires g.authority.Some? && Requirements(g, req) == [rule] && rule == Requirement(RISK_LOW, 1, ["dba"])
    requires req.plan.risk == RISK_LOW && AllValid(g, req, 0).Keys == {"c"} && AllValid(g, req, 0)["c"].expiresAt == 100
    requires EligibleFor(AllValid(g, req, 0), rule) == {"c"} && EligibleFor(AllValid(g, req, 10), rule) == {}
    requires d.approvers == ["c"] && d.expiresAt == map["c" := 100]
    ensures Satisfied(AllValid(g, req, 0), req.plan.risk, Requirements(g, req)[0])
    ensures Records(g, req, 0, d) && !Satisfied(AllValid(g, req, 10), req.plan.risk, Requirements(g, req)[0])
  {
    hide AllValid, EligibleFor;
    NotBlank("dba");
    assert Members(d.approvers) == {"c"};
    forall id
      ensures id in Members(d.approvers) <==> CountedFor(g, req, 0, 1, id)
    {
      if id == "c" {
        assert Requirements(g, req)[0].minimumRisk <= req.plan.risk && id in EligibleFor(AllValid(g, req, 0), Requirements(g, req)[0]);
      }
    }
  }

  lemma NotBlank(s: string)
    requires s != "" && !Space(s[0])
    ensures !Blank(s)
  {}

  lemma OneRole(g: Gate, req: Request, auth: Authority, first: Approval, second: Approval, at: int)
    requires g.authority == Some(auth) && auth.verify == TwoFaced && req.approvals == [first, second]
    requires first == Approval("d", "p", "c", 0, 100, "x") && second == Approval("d", "p", "c", 5, 100, "")
    requires req.plan.digest == "d" && req.plan.environment == "p" && req.plan.author == "a" && req.requestedBy == "b"
    requires 0 <= at < 100
    ensures AllValid(g, req, at) == map["c" := TwoFaced(if at < 5 then first else second).value]
  {
    assert ValidApprovals(auth, req, at, 1) == map["c" := TwoFaced(first).value];
  }
}
