/**
 The approval gate in front of a migration: who may apply which plan, and the cheap
 recheck that stands in for the whole gate just before the mutation.
 */
module ApprovalGate {
  import opened Options
  import opened ApprovalEvents
  import opened StringOrder

  const RISK_LOW := 0
  const RISK_CRITICAL := 3

  datatype Plan = Plan(digest: string, environment: string, author: string, risk: int, expiresAt: Option<int>)

  datatype Approval = Approval(
    planDigest: string, environment: string, approver: string, approvedAt: int, expiresAt: int, proof: string)

  datatype Identity = Identity(id: string, roles: seq<string>, emergencyAuthority: bool)

  datatype Verified = Verified(
    identity: Identity, planDigest: string, environment: string, approvedAt: int, expiresAt: int)

  /** The trusted boundary, with fixed answers. */
  datatype Authority = Authority(resolve: string -> Option<Identity>, verify: Approval -> Option<Verified>)

  datatype Requirement = Requirement(minimumRisk: int, approverCount: int, roles: seq<string>)

  datatype EnvironmentPolicy = EnvironmentPolicy(allowed: bool, requirements: seq<Requirement>)

  datatype Override = Override(identity: string, reason: string)

  datatype Request = Request(plan: Plan, approvals: seq<Approval>, override: Option<Override>, requestedBy: string)

  datatype Gate = Gate(policy: map<string, EnvironmentPolicy>, authority: Option<Authority>)

  datatype Decision = Decision(
    allowed: bool, emergency: bool, approvers: seq<string>, reason: Reason, expiresAt: map<string, int>)

  // ---------- what the gate demands ----------

  /** An approval that counts at this instant: verified, for this plan and environment, current, and by a third party. */
  predicate Current(auth: Authority, req: Request, at: int, a: Approval) {
    && a.approver != "" && auth.verify(a).Some?
    && var v := auth.verify(a).value;
       && v.identity.id == a.approver && v.planDigest == req.plan.digest && v.environment == req.plan.environment
       && v.approvedAt <= at < v.expiresAt
       && v.identity.id != req.plan.author && v.identity.id != req.requestedBy
  }

  /** The last current approval of every approver among the first n. */
  function ValidApprovals(auth: Authority, req: Request, at: int, n: nat): map<string, Verified>
    requires n <= |req.approvals|
  {
    if n == 0 then map[]
    else
      var before, a := ValidApprovals(auth, req, at, n - 1), req.approvals[n - 1];
      if Current(auth, req, at, a) then before[a.approver := auth.verify(a).value] else before
  }

  predicate HasAllRoles(got: seq<string>, want: seq<string>) { forall i | 0 <= i < |want| :: want[i] in got }

  /** The distinct approvers whose roles satisfy a requirement. */
  function EligibleFor(valid: map<string, Verified>, r: Requirement): set<string> {
    set id | id in valid && HasAllRoles(valid[id].identity.roles, r.roles)
  }

  predicate WellFormed(r: Requirement) {
    && RISK_LOW <= r.minimumRisk <= RISK_CRITICAL && 0 <= r.approverCount
    && forall i | 0 <= i < |r.roles| :: !Blank(r.roles[i])
  }

  predicate Satisfied(valid: map<string, Verified>, risk: int, r: Requirement) {
    WellFormed(r) && (r.minimumRisk <= risk ==> |EligibleFor(valid, r)| >= r.approverCount)
  }

  /** What does not depend on the clock. */
  predicate Open(g: Gate, req: Request) {
    && !Blank(req.plan.digest) && !Blank(req.plan.environment) && !Blank(req.plan.author) && !Blank(req.requestedBy)
    && req.plan.author != req.requestedBy
    && RISK_LOW <= req.plan.risk <= RISK_CRITICAL
    && g.authority.Some?
    && Trusted(g.authority.value, req.plan.author) && Trusted(g.authority.value, req.requestedBy)
    && req.plan.environment in g.policy && g.policy[req.plan.environment].allowed
  }

  predicate Trusted(auth: Authority, id: string) { auth.resolve(id).Some? && auth.resolve(id).value.id == id }

  predicate Live(plan: Plan, at: int) { plan.expiresAt.Some? ==> at < plan.expiresAt.value }

  predicate OverrideGranted(auth: Authority, req: Request)
    requires req.override.Some?
  {
    && !Blank(req.override.value.identity) && !Blank(req.override.value.reason)
    && req.override.value.identity == req.requestedBy
    && auth.resolve(req.requestedBy).Some? && auth.resolve(req.requestedBy).value.emergencyAuthority
  }

  function AllValid(g: Gate, req: Request, at: int): map<string, Verified>
    requires g.authority.Some?
  {
    ValidApprovals(g.authority.value, req, at, |req.approvals|)
  }

  function Requirements(g: Gate, req: Request): seq<Requirement> {
    if req.plan.environment in g.policy then g.policy[req.plan.environment].requirements else []
  }

  /** The complete gate at an instant. */
  ghost predicate Authorized(g: Gate, req: Request, at: int, observation: bool) {
    && Open(g, req)
    && (observation || Live(req.plan, at))
    && (if req.override.Some? then OverrideGranted(g.authority.value, req)
        else forall i | 0 <= i < |Requirements(g, req)| :: Satisfied(AllValid(g, req, at), req.plan.risk, Requirements(g, req)[i]))
  }

  /** Approvers some applicable requirement counted. */
  ghost predicate CountedFor(g: Gate, req: Request, at: int, n: nat, id: string)
    requires g.authority.Some? && n <= |Requirements(g, req)|
  {
    exists i :: 0 <= i < n && Requirements(g, req)[i].minimumRisk <= req.plan.risk &&
                id in EligibleFor(AllValid(g, req, at), Requirements(g, req)[i])
  }

  // ---------- facts about the approvals ----------

  /** Whoever has a valid approval has a current one in the request, with these claims. */
  lemma {:induction false} ValidIsCurrent(auth: Authority, req: Request, at: int, n: nat, id: string)
    requires n <= |req.approvals|
    ensures id in ValidApprovals(auth, req, at, n) <==>
            exists i :: 0 <= i < n && Current(auth, req, at, req.approvals[i]) && req.approvals[i].approver == id
    ensures id in ValidApprovals(auth, req, at, n) ==>
            exists i :: 0 <= i < n && Current(auth, req, at, req.approvals[i]) && req.approvals[i].approver == id &&
                        ValidApprovals(auth, req, at, n)[id] == auth.verify(req.approvals[i]).value
  {
    if n > 0 {
      ValidIsCurrent(auth, req, at, n - 1, id);
    }
  }

  /** Nobody who wrote or requested the plan is ever counted, and nobody without a current matching approval. */
  lemma SeparationOfDuties(g: Gate, req: Request, at: int, id: string)
    requires Open(g, req) && CountedFor(g, req, at, |Requirements(g, req)|, id)
    ensures id != req.plan.author && id != req.requestedBy && req.plan.author != req.requestedBy
    ensures exists i :: 0 <= i < |req.approvals| && Current(g.authority.value, req, at, req.approvals[i]) &&
                        g.authority.value.verify(req.approvals[i]).value.identity.id == id
  {
    ValidIsCurrent(g.authority.value, req, at, |req.approvals|, id);
  }

  // ---------- how an approver's roles can change with time ----------

  /** Everything about an approval that counts, except its time. */
  predicate Matching(auth: Authority, req: Request, a: Approval) {
    && a.approver != "" && auth.verify(a).Some?
    && var v := auth.verify(a).value;
       && v.identity.id == a.approver && v.planDigest == req.plan.digest && v.environment == req.plan.environment
       && v.identity.id != req.plan.author && v.identity.id != req.requestedBy
  }

  /** Approval i is the one that counts for its approver at this instant: current, and no later one is. */
  predicate Counts(auth: Authority, req: Request, i: nat, at: int)
    requires i < |req.approvals|
  {
    && Current(auth, req, at, req.approvals[i])
    && forall k | i < k < |req.approvals| && req.approvals[k].approver == req.approvals[i].approver ::
         !Current(auth, req, at, req.approvals[k])
  }

  predicate RolesWithin(v: Verified, w: Verified) { HasAllRoles(w.identity.roles, v.identity.roles) }

  /** An instant at which approval i can begin to count: its own start or, for m >= 0, the expiry of approval m. */
  function BeginOf(auth: Authority, req: Request, i: nat, m: int): int
    requires i < |req.approvals| && auth.verify(req.approvals[i]).Some?
  {
    if 0 <= m < |req.approvals| && auth.verify(req.approvals[m]).Some?
    then auth.verify(req.approvals[m]).value.expiresAt
    else auth.verify(req.approvals[i]).value.approvedAt
  }

  /**
   Approval j takes over from approval i of the same approver before i expires, without
   one of its roles; m and n name the instants from which they count. All of this can be
   read off the request and the authority's answers.
   */
  predicate Downgrades(auth: Authority, req: Request, i: nat, j: nat, m: int, n: int)
    requires i < j < |req.approvals|
  {
    var a, b := req.approvals[i], req.approvals[j];
    && a.approver == b.approver && Matching(auth, req, a) && Matching(auth, req, b)
    && !RolesWithin(auth.verify(a).value, auth.verify(b).value)
    && var p, q := BeginOf(auth, req, i, m), BeginOf(auth, req, j, n);
       p <= q < auth.verify(a).value.expiresAt && Counts(auth, req, i, p) && Counts(auth, req, j, q)
  }

  predicate NeverDowngraded(auth: Authority, req: Request) {
    forall i, j, m, n | 0 <= i < j < |req.approvals| && -1 <= m < |req.approvals| && -1 <= n < |req.approvals| ::
      !Downgrades(auth, req, i, j, m, n)
  }

  /** Whoever is valid and not yet expired later keeps all the roles they had. */
  ghost predicate KeepsRoles(auth: Authority, req: Request, at: int, later: int) {
    var n := |req.approvals|;
    forall id | id in ValidApprovals(auth, req, at, n) && later < ValidApprovals(auth, req, at, n)[id].expiresAt ::
      && id in ValidApprovals(auth, req, later, n)
      && RolesWithin(ValidApprovals(auth, req, at, n)[id], ValidApprovals(auth, req, later, n)[id])
  }

  /** The valid approval of an approver is the one that counts. */
  lemma {:induction false} ValidIsLast(auth: Authority, req: Request, at: int, n: nat, i: nat)
    requires i < n <= |req.approvals| && Current(auth, req, at, req.approvals[i])
    requires forall k | i < k < n && req.approvals[k].approver == req.approvals[i].approver ::
               !Current(auth, req, at, req.approvals[k])
    ensures req.approvals[i].approver in ValidApprovals(auth, req, at, n)
    ensures ValidApprovals(auth, req, at, n)[req.approvals[i].approver] == auth.verify(req.approvals[i]).value
  {
    if i < n - 1 {
      ValidIsLast(auth, req, at, n - 1, i);
    }
  }

  lemma {:induction false} LastIndex(auth: Authority, req: Request, at: int, n: nat, id: string) returns (i: nat)
    requires n <= |req.approvals| && id in ValidApprovals(auth, req, at, n)
    ensures i < n && req.approvals[i].approver == id && Current(auth, req, at, req.approvals[i])
    ensures forall k | i < k < n && req.approvals[k].approver == id :: !Current(auth, req, at, req.approvals[k])
  {
    var a := req.approvals[n - 1];
    if Current(auth, req, at, a) && a.approver == id {
      i := n - 1;
    } else {
      i := LastIndex(auth, req, at, n - 1, id);
    }
  }

  /** Whoever is valid has one approval that counts, and it is the one recorded. */
  lemma CountingApproval(auth: Authority, req: Request, at: int, id: string) returns (i: nat)
    requires id in ValidApprovals(auth, req, at, |req.approvals|)
    ensures i < |req.approvals| && req.approvals[i].approver == id && Counts(auth, req, i, at)
    ensures ValidApprovals(auth, req, at, |req.approvals|)[id] == auth.verify(req.approvals[i]).value
  {
    hide ValidApprovals;
    i := LastIndex(auth, req, at, |req.approvals|, id);
    ValidIsLast(auth, req, at, |req.approvals|, i);
  }

  /** The latest instant up to `at` at which approval i can begin to count. */
  ghost function Latest(auth: Authority, req: Request, i: nat, at: int, n: nat): (m: int)
    requires i < |req.approvals| && auth.verify(req.approvals[i]).Some? && n <= |req.approvals|
    requires auth.verify(req.approvals[i]).value.approvedAt <= at
    ensures -1 <= m < n && BeginOf(auth, req, i, m) <= at
    ensures auth.verify(req.approvals[i]).value.approvedAt <= BeginOf(auth, req, i, m)
    ensures forall k | 0 <= k < n && auth.verify(req.approvals[k]).Some? && auth.verify(req.approvals[k]).value.expiresAt <= at ::
              auth.verify(req.approvals[k]).value.expiresAt <= BeginOf(auth, req, i, m)
  {
    if n == 0 then -1
    else
      var m, a := Latest(auth, req, i, at, n - 1), req.approvals[n - 1];
      if auth.verify(a).Some? && BeginOf(auth, req, i, m) < auth.verify(a).value.expiresAt <= at then n - 1 else m
  }

  /** An approval that counts at some instant counted from such a beginning on. */
  lemma CountsFromBegin(auth: Authority, req: Request, i: nat, at: int)
    requires i < |req.approvals| && Counts(auth, req, i, at)
    ensures Counts(auth, req, i, BeginOf(auth, req, i, Latest(auth, req, i, at, |req.approvals|)))
  {
    var p := BeginOf(auth, req, i, Latest(auth, req, i, at, |req.approvals|));
    forall k | i < k < |req.approvals| && req.approvals[k].approver == req.approvals[i].approver
      ensures !Current(auth, req, p, req.approvals[k])
    {
      assert !Current(auth, req, at, req.approvals[k]);
    }
  }

  /** If another approval counts before this one expires, it is a later one that starts in between. */
  lemma TakesOver(auth: Authority, req: Request, at: int, later: int, i: nat, j: nat)
    requires i < |req.approvals| && j < |req.approvals| && req.approvals[i].approver == req.approvals[j].approver
    requires at <= later && Counts(auth, req, i, at) && Counts(auth, req, j, later)
    requires later < auth.verify(req.approvals[i]).value.expiresAt
    ensures i == j || (i < j && at < auth.verify(req.approvals[j]).value.approvedAt)
  {
    if j < i {
      assert Current(auth, req, later, req.approvals[i]);
    } else if i < j {
      assert !Current(auth, req, at, req.approvals[j]);
    }
  }

  lemma NoDowngradeKeepsRoles(auth: Authority, req: Request, at: int, later: int)
    requires NeverDowngraded(auth, req) && at <= later
    ensures KeepsRoles(auth, req, at, later)
  {
    hide ValidApprovals, Current, Counts;
    var n := |req.approvals|;
    forall id | id in ValidApprovals(auth, req, at, n) && later < ValidApprovals(auth, req, at, n)[id].expiresAt
      ensures id in ValidApprovals(auth, req, later, n)
      ensures RolesWithin(ValidApprovals(auth, req, at, n)[id], ValidApprovals(auth, req, later, n)[id])
    {
      var i := CountingApproval(auth, req, at, id);
      LastsUntil(auth, req, at, later, i);
      ValidIsCurrent(auth, req, later, n, id);
      var j := CountingApproval(auth, req, later, id);
      TakesOver(auth, req, at, later, i, j);
      if i < j {
        BothMatch(auth, req, at, i);
        BothMatch(auth, req, later, j);
        var p, q := Latest(auth, req, i, at, n), Latest(auth, req, j, later, n);
        CountsFromBegin(auth, req, i, at);
        CountsFromBegin(auth, req, j, later);
        assert !Downgrades(auth, req, i, j, p, q);
      }
    }
  }

  lemma LastsUntil(auth: Authority, req: Request, at: int, later: int, i: nat)
    requires i < |req.approvals| && Counts(auth, req, i, at) && at <= later
    requires later < auth.verify(req.approvals[i]).value.expiresAt
    ensures Current(auth, req, later, req.approvals[i])
  {
  }

  lemma BothMatch(auth: Authority, req: Request, at: int, i: nat)
    requires i < |req.approvals| && Counts(auth, req, i, at)
    ensures Matching(auth, req, req.approvals[i])
    ensures auth.verify(req.approvals[i]).value.approvedAt <= at < auth.verify(req.approvals[i]).value.expiresAt
  {
  }

  lemma DowngradeLosesRoles(auth: Authority, req: Request, i: nat, j: nat, m: int, n: int)
    requires i < j < |req.approvals| && Downgrades(auth, req, i, j, m, n)
    ensures !KeepsRoles(auth, req, BeginOf(auth, req, i, m), BeginOf(auth, req, j, n))
  {
    hide ValidApprovals;
    ValidIsLast(auth, req, BeginOf(auth, req, i, m), |req.approvals|, i);
    ValidIsLast(auth, req, BeginOf(auth, req, j, n), |req.approvals|, j);
  }

  /** Approvers keep their roles for as long as they are fresh if and only if no approval takes over without them. */
  lemma RolesKeptIffNeverDowngraded(auth: Authority, req: Request)
    ensures NeverDowngraded(auth, req) <==> forall at, later | at <= later :: KeepsRoles(auth, req, at, later)
  {
    hide KeepsRoles;
    if NeverDowngraded(auth, req) {
      forall at, later | at <= later
        ensures KeepsRoles(auth, req, at, later)
      {
        NoDowngradeKeepsRoles(auth, req, at, later);
      }
    } else {
      var i, j, m, n :| 0 <= i < j < |req.approvals| && -1 <= m < |req.approvals| && -1 <= n < |req.approvals| &&
                        Downgrades(auth, req, i, j, m, n);
      DowngradeLosesRoles(auth, req, i, j, m, n);
    }
  }

  lemma {:induction false} SubsetSize(a: set<string>, b: set<string>)
    requires a <= b
    ensures |a| <= |b|
  {
    if a != {} {
      var x :| x in a;
      SubsetSize(a - {x}, b - {x});
    }
  }

  // ---------- evaluation ----------

  /** What an allowing decision without override records about its approvers. */
  ghost predicate Records(g: Gate, req: Request, at: int, d: Decision)
    requires g.authority.Some?
  {
    && Increasing(d.approvers)
    && (forall id :: id in Members(d.approvers) <==> CountedFor(g, req, at, |Requirements(g, req)|, id))
    && (forall id | id in d.approvers :: id in AllValid(g, req, at) && id in d.expiresAt
                                         && d.expiresAt[id] == AllValid(g, req, at)[id].expiresAt)
  }

  method CollectValid(auth: Authority, req: Request, at: int) returns (valid: map<string, Verified>)
    ensures valid == ValidApprovals(auth, req, at, |req.approvals|)
  {
    valid := map[];
    for i := 0 to |req.approvals|
      invariant valid == ValidApprovals(auth, req, at, i)
    {
      var a := req.approvals[i];
      if a.approver == "" {
        continue;
      }
      if !Current(auth, req, at, a) {
        continue;
      }
      valid := valid[a.approver := auth.verify(a).value];
    }
  }

  /** Every noted approver is valid and noted with its expiry. */
  ghost predicate Noted(valid: map<string, Verified>, eligible: set<string>, expiresAt: map<string, int>) {
    forall id | id in eligible :: id in valid && id in expiresAt && expiresAt[id] == valid[id].expiresAt
  }

  lemma NoteOne(valid: map<string, Verified>, eligible: set<string>, expiresAt: map<string, int>, id: string)
    requires Noted(valid, eligible, expiresAt) && id in valid
    ensures Noted(valid, eligible + {id}, expiresAt[id := valid[id].expiresAt])
  {}

  lemma EligibleIff(valid: map<string, Verified>, r: Requirement, id: string)
    requires id in valid
    ensures id in EligibleFor(valid, r) <==> HasAllRoles(valid[id].identity.roles, r.roles)
    ensures EligibleFor(valid, r) <= valid.Keys
  {}

  /** Counts the distinct approvers with all the roles, noting each with its expiry. */
  method CountEligible(valid: map<string, Verified>, r: Requirement, eligible: set<string>, expiresAt: map<string, int>)
    returns (count: nat, eligible': set<string>, expiresAt': map<string, int>)
    requires Noted(valid, eligible, expiresAt)
    ensures count == |EligibleFor(valid, r)|
    ensures eligible' == eligible + EligibleFor(valid, r)
    ensures Noted(valid, eligible', expiresAt')
  {
    hide HasAllRoles, EligibleFor, Noted, Done;
    count, eligible', expiresAt' := 0, eligible, expiresAt;
    ghost var all := EligibleFor(valid, r);
    var rest := valid.Keys;
    OnlyValidEligible(valid, r, eligible);
    while rest != {}
      invariant rest <= valid.Keys && Done(all, rest, eligible, count, eligible')
      invariant Noted(valid, eligible', expiresAt')
      decreases |rest|
    {
      var id :| id in rest;
      EligibleIff(valid, r, id);
      var has := RolesHeld(valid[id].identity.roles, r.roles);
      DoneNext(all, rest, eligible, count, eligible', id);
      rest := rest - {id};
      if has {
        NoteOne(valid, eligible', expiresAt', id);
        count, eligible', expiresAt' := count + 1, eligible' + {id}, expiresAt'[id := valid[id].expiresAt];
      }
    }
    DoneAll(all, eligible, count, eligible');
  }

  /** All but the remaining ids were looked at: those among `all` were counted and added. */
  ghost predicate Done(all: set<string>, rest: set<string>, eligible: set<string>, count: int, eligible': set<string>) {
    count == |all - rest| && eligible' == eligible + (all - rest)
  }

  lemma DoneNext(all: set<string>, rest: set<string>, eligible: set<string>, count: int, eligible': set<string>, id: string)
    requires Done(all, rest, eligible, count, eligible') && id in rest
    ensures if id in all then Done(all, rest - {id}, eligible, count + 1, eligible' + {id})
            else Done(all, rest - {id}, eligible, count, eligible')
  {
    if id in all {
      assert all - (rest - {id}) == (all - rest) + {id};
    } else {
      assert all - (rest - {id}) == all - rest;
    }
  }

  lemma DoneAll(all: set<string>, eligible: set<string>, count: int, eligible': set<string>)
    requires Done(all, {}, eligible, count, eligible')
    ensures count == |all| && eligible' == eligible + all
  {
    assert all - {} == all;
  }

  lemma OnlyValidEligible(valid: map<string, Verified>, r: Requirement, eligible: set<string>)
    ensures Done(EligibleFor(valid, r), valid.Keys, eligible, 0, eligible)
  {
    assert EligibleFor(valid, r) - valid.Keys == {};
  }

  method RolesHeld(got: seq<string>, want: seq<string>) returns (ok: bool)
    ensures ok <==> HasAllRoles(got, want)
  {
    for i := 0 to |want|
      invariant forall k | 0 <= k < i :: want[k] in got
    {
      var found := false;
      for j := 0 to |got|
        invariant !found && want[i] !in got[..j]
      {
        if got[j] == want[i] {
          found := true;
          break;
        }
      }
      if !found {
        return false;
      }
    }
    ok := true;
  }

  function Deny(): Decision { Decision(false, false, [], Denied, map[]) }

  /** The gate's evaluation allows exactly what the complete gate demands. */
  method EvaluateFor(g: Gate, req: Request, at: int, observation: bool) returns (d: Decision)
    ensures d.allowed <==> Authorized(g, req, at, observation)
    ensures d.emergency <==> d.allowed && req.override.Some?
    ensures d.emergency ==> d.reason == Emergency(req.override.value.reason) && d.approvers == []
    ensures d.allowed && !d.emergency ==> Records(g, req, at, d) && d.reason == NoReason
    ensures !d.allowed ==> d == Deny()
  {
    hide Open, Live, OverrideGranted, Records, AllValid, Satisfied;
    if !Open(g, req) {
      return Deny();
    }
    OpenHasAuthority(g, req);
    if !observation && !Live(req.plan, at) {
      return Deny();
    }
    if req.override.Some? {
      if !OverrideGranted(g.authority.value, req) {
        return Deny();
      }
      return Decision(true, true, [], Emergency(req.override.value.reason), map[]);
    }
    d := MeetRequirements(g, req, at);
  }

  lemma OpenHasAuthority(g: Gate, req: Request)
    requires Open(g, req)
    ensures g.authority.Some? && req.plan.environment in g.policy
  {}

  method MeetRequirements(g: Gate, req: Request, at: int) returns (d: Decision)
    requires g.authority.Some? && req.plan.environment in g.policy
    ensures d.allowed <==> forall i | 0 <= i < |Requirements(g, req)| ::
                             Satisfied(AllValid(g, req, at), req.plan.risk, Requirements(g, req)[i])
    ensures !d.emergency
    ensures d.allowed ==> Records(g, req, at, d) && d.reason == NoReason
    ensures !d.allowed ==> d == Deny()
  {
    hide ValidApprovals, EligibleFor, WellFormed;
    var valid := CollectValid(g.authority.value, req, at);
    var eligible: set<string>, expiresAt: map<string, int> := {}, map[];
    var requirements := Requirements(g, req);
    for i := 0 to |requirements|
      invariant forall k | 0 <= k < i :: Satisfied(valid, req.plan.risk, requirements[k])
      invariant Noted(valid, eligible, expiresAt)
      invariant forall id :: id in eligible <==> CountedFor(g, req, at, i, id)
    {
      var r := requirements[i];
      if !WellFormed(r) {
        return Deny();
      }
      if req.plan.risk < r.minimumRisk {
        CountedNext(g, req, at, i);
        continue;
      }
      var count;
      count, eligible, expiresAt := CountEligible(valid, r, eligible, expiresAt);
      CountedNext(g, req, at, i);
      if count < r.approverCount {
        return Deny();
      }
    }
    var names := SortStrings(eligible);
    d := Decision(true, false, names, NoReason, expiresAt);
  }

  lemma CountedNext(g: Gate, req: Request, at: int, n: nat)
    requires g.authority.Some? && n < |Requirements(g, req)|
    ensures forall id :: CountedFor(g, req, at, n + 1, id) <==>
                           CountedFor(g, req, at, n, id) ||
                           (Requirements(g, req)[n].minimumRisk <= req.plan.risk &&
                            id in EligibleFor(AllValid(g, req, at), Requirements(g, req)[n]))
  {
    hide AllValid, EligibleFor;
  }

  // ---------- the recheck before mutation ----------

  predicate Fresh(req: Request, d: Decision, at: int) {
    && Live(req.plan, at)
    && (d.emergency || forall i | 0 <= i < |d.approvers| ::
          d.approvers[i] in d.expiresAt && at < d.expiresAt[d.approvers[i]])
  }

  method ApprovalsFresh(req: Request, d: Decision, at: int) returns (ok: bool)
    ensures ok <==> Fresh(req, d, at)
  {
    if req.plan.expiresAt.Some? && req.plan.expiresAt.value <= at {
      return false;
    }
    if d.emergency {
      return true;
    }
    for i := 0 to |d.approvers|
      invariant forall k | 0 <= k < i :: d.approvers[k] in d.expiresAt && at < d.expiresAt[d.approvers[k]]
    {
      if d.approvers[i] !in d.expiresAt || d.expiresAt[d.approvers[i]] <= at {
        return false;
      }
    }
    ok := true;
  }
}
