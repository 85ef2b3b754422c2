/** The guarded apply: decide, record the decision durably, recheck, and only then mutate. */
module ApprovalGuard {
  import opened Options
  import opened HashChain
  import opened StringOrder
  import opened ApprovalEvents
  import opened ApprovalGate
  import opened ApprovalChain
  import opened ApprovalRecheck

  datatype Outcome = Mutated | Cancelled | AuditFailed | NotAllowed | Expired

  /** The trail says that this request was authorized, by whom and how. */
  predicate Authorizes(e: Event, req: Request, d: Decision) {
    && e.typ.ApplyAuthorized? && e.allowed && e.planDigest == req.plan.digest && e.environment == req.plan.environment
    && e.actor == req.requestedBy && e.approvers == d.approvers && e.emergency == d.emergency && e.reason == d.reason
  }

  predicate RecordedAt(lines: File, i: int, req: Request, d: Decision) {
    0 <= i < |lines| && lines[i].Some? && Authorizes(lines[i].value.event, req, d)
  }

  /** The last record denies this request. */
  predicate EndsDenied(lines: File, req: Request) {
    && lines != [] && lines[|lines| - 1].Some?
    && var e := lines[|lines| - 1].value.event;
       e.typ.ApplyDenied? && !e.allowed && e.planDigest == req.plan.digest && e.environment == req.plan.environment
       && e.actor == req.requestedBy
  }

  /**
   The successive clock readings are for the evaluation, for the event, for the
   recheck and for a late denial. A mutation happens only with the authorizing record in
   the intact trail; if the request overrides or keeps its counts, the complete gate is
   open at the reading of the recheck.
   */
  method GuardedApply(g: Gate, req: Request, sink: FileSink, t0: int, t1: int, t2: int, t3: int)
    returns (outcome: Outcome, d: Decision)
    requires t0 <= t1 <= t2 <= t3
    modifies sink
    ensures old(sink.lines) <= sink.lines && (old(Chain(sink.lines)) ==> Chain(sink.lines))
    ensures old(sink.Tracked()) ==> sink.Tracked()
    ensures outcome.Mutated? ==> Authorized(g, req, t0, false) && Live(req.plan, t2)
    ensures outcome.Mutated? && (req.override.Some? || CountsKept(g.authority.value, req)) ==>
              Authorized(g, req, t2, false)
    ensures outcome.Mutated? ==> Chain(sink.lines) && exists i :: RecordedAt(sink.lines, i, req, d)
    ensures outcome.Mutated? && !d.emergency ==> Records(g, req, t0, d)
    ensures outcome.Expired? ==> !Fresh(req, d, t2) && Authorized(g, req, t0, false)
    ensures outcome.NotAllowed? ==> !Authorized(g, req, t0, false)
    ensures outcome.NotAllowed? || outcome.Expired? ==> EndsDenied(sink.lines, req)
    ensures outcome.Expired? ==> exists i :: RecordedAt(sink.lines, i, req, d)
  {
    hide Authorized, Records, CountsKept, Chain, Fresh, Open, Live;
    d := Deny();
    var live: bool := *;
    if !live {
      return Cancelled, d;
    }
    d := EvaluateFor(g, req, t0, false);
    OverrideActs(g, req, t0, d);
    var actor := if d.emergency && req.override.Some? then req.override.value.identity else req.requestedBy;
    var event := Event(t1, if d.allowed then ApplyAuthorized else ApplyDenied, req.plan.digest, req.plan.environment,
                       actor, d.reason, d.approvers, d.emergency, d.allowed);
    var ok, record := sink.AppendDurable(event);
    if !ok {
      return AuditFailed, d;
    }
    if !d.allowed {
      return NotAllowed, d;
    }
    ghost var recorded := sink.lines;
    assert RecordedAt(recorded, |recorded| - 1, req, d);
    live := *;
    if !live {
      return Cancelled, d;
    }
    var current := ApprovalsFresh(req, d, t2);
    if !current {
      var denied := event.(at := t3, typ := ApplyDenied, allowed := false, reason := ExpiredBeforeMutation);
      ok, record := sink.AppendDurable(denied);
      assert RecordedAt(sink.lines, |recorded| - 1, req, d);
      return if ok then Expired else AuditFailed, d;
    }
    live := *;
    if !live {
      return Cancelled, d;
    }
    FreshIsLive(req, d, t2);
    if req.override.Some? || CountsKept(g.authority.value, req) {
      StillAuthorized(g, req, d, t0, t2);
    }
    outcome := Mutated;
  }

  lemma OverrideActs(g: Gate, req: Request, at: int, d: Decision)
    requires d.allowed ==> Authorized(g, req, at, false)
    requires d.emergency ==> d.allowed && req.override.Some?
    ensures d.emergency ==> req.override.value.identity == req.requestedBy
    ensures d.allowed ==> g.authority.Some?
  {}

  lemma FreshIsLive(req: Request, d: Decision, at: int)
    requires Fresh(req, d, at)
    ensures Live(req.plan, at)
  {}

  lemma StillAuthorized(g: Gate, req: Request, d: Decision, at: int, later: int)
    requires g.authority.Some? && (req.override.Some? || CountsKept(g.authority.value, req))
    requires Authorized(g, req, at, false) && at <= later && Fresh(req, d, later)
    requires d.emergency <==> req.override.Some?
    requires !d.emergency ==> Records(g, req, at, d)
    ensures Authorized(g, req, later, false)
  {
    hide Records, CountsKept, Satisfied, AllValid, Open, OverrideGranted;
    if req.override.None? {
      FreshIsAuthorized(g, req, d, at, later);
    }
  }
}
