/**
 Deciding from the lifecycle log whether an execution really completed: one pass over
 the events, against what the log must hold.
 */
module CompletionAudit {
  import opened ExecutionTypes

  /** The plan of an artifact whose completion is asked about: at least one phase, and no phase without steps. */
  predicate Phased(a: Artifact) {
    |a.phases| > 0 && forall i | 0 <= i < |a.phases| :: |a.phases[i].stepIds| > 0
  }

  function Last(p: Phase): string
    requires |p.stepIds| > 0
  {
    p.stepIds[|p.stepIds| - 1]
  }

  predicate Relevant(a: Artifact, e: Event) { e.artifactDigest == a.digest || e.executionId == a.digest }

  predicate BoundEvent(a: Artifact, attempt: int, now: int, e: Event) {
    && e.artifactDigest == a.digest && e.executionId == a.digest && e.planDigest == a.planDigest
    && e.bundleDigest == a.bundleDigest && e.target == TargetOf(a) && e.attempt == attempt
    && a.createdAt <= e.at <= now
  }

  /** Evidence of execution: the artifact's events other than observations. */
  predicate Execution(a: Artifact, e: Event) { Relevant(a, e) && !e.typ.CompletionObserved? }

  predicate Shaped(a: Artifact, e: Event)
    requires Phased(a)
  {
    match e.typ
    case Requested | LockAcquired | TransactionStarted | Contended | AuthorizationRefused | ExpiryRefused | Stale =>
      e.stepId == ""
    case Confirmed | Intent => exists i :: 0 <= i < |a.steps| && a.steps[i].id == e.stepId
    case TransactionCommitted =>
      exists i :: 0 <= i < |a.phases| && a.phases[i].transaction.RequiredTx? && Last(a.phases[i]) == e.stepId
    case Completed => e.stepId == Last(a.phases[|a.phases| - 1])
    case _ => false
  }

  predicate Failure(t: EventType) {
    t.Uncertain? || t.RollbackFailed? || t.TransactionFailed? || t.TransactionRollback? || t.TransactionBeginFailed?
  }

  predicate StepWork(t: EventType) { t.Confirmed? || t.Intent? || t.TransactionCommitted? }

  // ---------- what the log must hold ----------

  /** Among the first n events is an execution event of this type for this step. */
  ghost predicate Happened(a: Artifact, events: seq<Event>, n: nat, t: EventType, step: string) {
    exists i :: 0 <= i < n <= |events| && Execution(a, events[i]) && events[i].typ == t && events[i].stepId == step
  }

  ghost predicate PhaseHappened(a: Artifact, events: seq<Event>, n: nat, p: Phase)
    requires |p.stepIds| > 0
  {
    && (forall j | 0 <= j < |p.stepIds| :: Happened(a, events, n, Confirmed, p.stepIds[j]))
    && (p.transaction.ProhibitedTx? ==>
          forall j | 0 <= j < |p.stepIds| :: Happened(a, events, n, Intent, p.stepIds[j]))
    && (p.transaction.RequiredTx? ==>
          && Happened(a, events, n, TransactionStarted, "")
          && Happened(a, events, n, TransactionCommitted, Last(p)))
  }

  /** The request, the lock, every step's confirmation, every intent outside a transaction and every commit. */
  ghost predicate AllHappened(a: Artifact, events: seq<Event>, n: nat)
    requires Phased(a)
  {
    && Happened(a, events, n, Requested, "") && Happened(a, events, n, LockAcquired, "")
    && forall i | 0 <= i < |a.phases| :: PhaseHappened(a, events, n, a.phases[i])
  }

  ghost predicate Acceptable(a: Artifact, attempt: int, now: int, e: Event)
    requires Phased(a)
  {
    && (Relevant(a, e) ==> BoundEvent(a, attempt, now, e))
    && (Execution(a, e) ==> e.id == LifecycleEventId(e) && Shaped(a, e))
  }

  ghost predicate Repeats(a: Artifact, events: seq<Event>, i: nat, j: nat)
    requires i < |events| && j < |events|
  {
    Execution(a, events[i]) && Execution(a, events[j]) && events[i].id == events[j].id
  }

  /** The first n events are bound, shaped and pairwise different. */
  ghost predicate Sound(a: Artifact, attempt: int, now: int, events: seq<Event>, n: nat)
    requires Phased(a) && n <= |events|
  {
    && (forall i | 0 <= i < n :: Acceptable(a, attempt, now, events[i]))
    && (forall i, j | 0 <= i < j < n :: !Repeats(a, events, i, j))
  }

  /** Event k completes the execution: everything happened before it and no step work among the first n comes after. */
  ghost predicate CompletesAt(a: Artifact, events: seq<Event>, k: int, n: nat)
    requires Phased(a) && n <= |events|
  {
    && 0 <= k < n && Execution(a, events[k]) && events[k].typ.Completed?
    && AllHappened(a, events, k)
    && (forall i | k < i < n && Execution(a, events[i]) :: !StepWork(events[i].typ))
  }

  ghost predicate Completes(a: Artifact, events: seq<Event>, n: nat)
    requires Phased(a) && n <= |events|
  {
    exists k :: CompletesAt(a, events, k, n)
  }

  ghost predicate Complete(a: Artifact, attempt: int, now: int, events: seq<Event>)
    requires Phased(a)
  {
    Sound(a, attempt, now, events, |events|) && Completes(a, events, |events|)
  }

  // ---------- consequences ----------

  /** Sound logs hold at most one completion. */
  lemma OneCompletion(a: Artifact, attempt: int, now: int, events: seq<Event>, n: nat, i: nat, j: nat)
    requires Phased(a) && n <= |events| && Sound(a, attempt, now, events, n) && i < n && j < n
    requires Execution(a, events[i]) && events[i].typ.Completed? && Execution(a, events[j]) && events[j].typ.Completed?
    ensures i == j
  {
    assert Acceptable(a, attempt, now, events[i]) && Acceptable(a, attempt, now, events[j]);
    if i < j && Repeats(a, events, i, j) {
    } else if j < i && Repeats(a, events, j, i) {
    }
  }

  /** A complete log shows exactly one completion and no failure of the artifact's execution. */
  lemma CompleteMeansOneCleanCompletion(a: Artifact, attempt: int, now: int, events: seq<Event>)
    requires Phased(a) && Complete(a, attempt, now, events)
    ensures exists k :: 0 <= k < |events| && Execution(a, events[k]) && events[k].typ.Completed? &&
                        forall i | 0 <= i < |events| && Execution(a, events[i]) && events[i].typ.Completed? :: i == k
    ensures forall i | 0 <= i < |events| && Execution(a, events[i]) :: !Failure(events[i].typ)
  {
    var k :| CompletesAt(a, events, k, |events|);
    forall i | 0 <= i < |events| && Execution(a, events[i]) && events[i].typ.Completed?
      ensures i == k
    {
      OneCompletion(a, attempt, now, events, |events|, i, k);
    }
    forall i | 0 <= i < |events| && Execution(a, events[i])
      ensures !Failure(events[i].typ)
    {
      assert Acceptable(a, attempt, now, events[i]);
    }
  }

  // ---------- the pass over the log ----------

  /** `seen` are the identifiers of the execution events among the first n. */
  ghost predicate SeenUpTo(a: Artifact, events: seq<Event>, n: nat, seen: set<EventId>)
    requires n <= |events|
  {
    && (forall i | 0 <= i < n && Execution(a, events[i]) :: events[i].id in seen)
    && (forall id | id in seen :: exists i :: 0 <= i < n && Execution(a, events[i]) && events[i].id == id)
  }

  predicate Has(a: Artifact, attempt: int, seen: set<EventId>, t: EventType, step: string) {
    LifecycleId(attempt, a.digest, t, step) in seen
  }

  predicate PhaseRequired(a: Artifact, attempt: int, seen: set<EventId>, p: Phase)
    requires |p.stepIds| > 0
  {
    && (forall j | 0 <= j < |p.stepIds| :: Has(a, attempt, seen, Confirmed, p.stepIds[j]))
    && (p.transaction.ProhibitedTx? ==> forall j | 0 <= j < |p.stepIds| :: Has(a, attempt, seen, Intent, p.stepIds[j]))
    && (p.transaction.RequiredTx? ==>
          && Has(a, attempt, seen, TransactionStarted, "")
          && Has(a, attempt, seen, TransactionCommitted, Last(p)))
  }

  predicate RequiredSeen(a: Artifact, attempt: int, seen: set<EventId>)
    requires Phased(a)
  {
    && Has(a, attempt, seen, Requested, "") && Has(a, attempt, seen, LockAcquired, "")
    && forall i | 0 <= i < |a.phases| :: PhaseRequired(a, attempt, seen, a.phases[i])
  }

  method RequiredCompletionAudit(a: Artifact, attempt: int, seen: set<EventId>) returns (ok: bool)
    requires Phased(a)
    ensures ok <==> RequiredSeen(a, attempt, seen)
  {
    if !Has(a, attempt, seen, Requested, "") || !Has(a, attempt, seen, LockAcquired, "") {
      return false;
    }
    for i := 0 to |a.phases|
      invariant forall k | 0 <= k < i :: PhaseRequired(a, attempt, seen, a.phases[k])
    {
      var phase := a.phases[i];
      for j := 0 to |phase.stepIds|
        invariant forall k | 0 <= k < j :: Has(a, attempt, seen, Confirmed, phase.stepIds[k])
        invariant phase.transaction.ProhibitedTx? ==>
                    forall k | 0 <= k < j :: Has(a, attempt, seen, Intent, phase.stepIds[k])
      {
        var id := phase.stepIds[j];
        if !Has(a, attempt, seen, Confirmed, id) || (phase.transaction.ProhibitedTx? && !Has(a, attempt, seen, Intent, id)) {
          return false;
        }
      }
      if phase.transaction.RequiredTx?
         && (!Has(a, attempt, seen, TransactionStarted, "") || !Has(a, attempt, seen, TransactionCommitted, Last(phase))) {
        return false;
      }
    }
    ok := true;
  }

  /** In a sound prefix, having seen the identifier of an event is having had the event. */
  lemma SeenIsHappened(
    a: Artifact, attempt: int, now: int, events: seq<Event>, n: nat, seen: set<EventId>, t: EventType, step: string)
    requires Phased(a) && n <= |events| && Sound(a, attempt, now, events, n) && SeenUpTo(a, events, n, seen)
    requires !t.CompletionObserved?
    ensures Has(a, attempt, seen, t, step) <==> Happened(a, events, n, t, step)
  {
    if Has(a, attempt, seen, t, step) {
      var i :| 0 <= i < n && Execution(a, events[i]) && events[i].id == LifecycleId(attempt, a.digest, t, step);
      assert Acceptable(a, attempt, now, events[i]);
    }
    if Happened(a, events, n, t, step) {
      var i :| 0 <= i < n && Execution(a, events[i]) && events[i].typ == t && events[i].stepId == step;
      assert Acceptable(a, attempt, now, events[i]);
    }
  }

  lemma PhaseSeenIsHappened(
    a: Artifact, attempt: int, now: int, events: seq<Event>, n: nat, seen: set<EventId>, p: Phase)
    requires Phased(a) && n <= |events| && Sound(a, attempt, now, events, n) && SeenUpTo(a, events, n, seen)
    requires |p.stepIds| > 0
    ensures PhaseRequired(a, attempt, seen, p) <==> PhaseHappened(a, events, n, p)
  {
    hide Has, Happened, Sound, SeenUpTo, Phased;
    forall j | 0 <= j < |p.stepIds|
      ensures Has(a, attempt, seen, Confirmed, p.stepIds[j]) <==> Happened(a, events, n, Confirmed, p.stepIds[j])
      ensures Has(a, attempt, seen, Intent, p.stepIds[j]) <==> Happened(a, events, n, Intent, p.stepIds[j])
    {
      SeenIsHappened(a, attempt, now, events, n, seen, Confirmed, p.stepIds[j]);
      SeenIsHappened(a, attempt, now, events, n, seen, Intent, p.stepIds[j]);
    }
    SeenIsHappened(a, attempt, now, events, n, seen, TransactionStarted, "");
    SeenIsHappened(a, attempt, now, events, n, seen, TransactionCommitted, Last(p));
  }

  lemma RequiredIsHappened(a: Artifact, attempt: int, now: int, events: seq<Event>, n: nat, seen: set<EventId>)
    requires Phased(a) && n <= |events| && Sound(a, attempt, now, events, n) && SeenUpTo(a, events, n, seen)
    ensures RequiredSeen(a, attempt, seen) <==> AllHappened(a, events, n)
  {
    hide Has, Happened, Sound, SeenUpTo, PhaseRequired, PhaseHappened;
    SeenIsHappened(a, attempt, now, events, n, seen, Requested, "");
    SeenIsHappened(a, attempt, now, events, n, seen, LockAcquired, "");
    forall i | 0 <= i < |a.phases|
      ensures PhaseRequired(a, attempt, seen, a.phases[i]) <==> PhaseHappened(a, events, n, a.phases[i])
    {
      PhaseSeenIsHappened(a, attempt, now, events, n, seen, a.phases[i]);
    }
  }

  /** The state of the pass after n events. */
  ghost predicate Scanned(
    a: Artifact, attempt: int, now: int, events: seq<Event>, n: nat, seen: set<EventId>, completed: bool)
    requires Phased(a) && n <= |events|
  {
    && Sound(a, attempt, now, events, n) && SeenUpTo(a, events, n, seen)
    && (completed ==> Completes(a, events, n))
    && (!completed ==> forall i | 0 <= i < n && Execution(a, events[i]) :: !events[i].typ.Completed?)
  }

  /** An event that is no step work leaves a completion in place. */
  lemma CompletionStays(a: Artifact, events: seq<Event>, n: nat)
    requires Phased(a) && n < |events| && Completes(a, events, n)
    requires Execution(a, events[n]) ==> !StepWork(events[n].typ)
    ensures Completes(a, events, n + 1)
  {
    hide AllHappened;
    var k :| CompletesAt(a, events, k, n);
    assert CompletesAt(a, events, k, n + 1);
  }

  lemma ScanSkips(a: Artifact, attempt: int, now: int, events: seq<Event>, n: nat, seen: set<EventId>, completed: bool)
    requires Phased(a) && n < |events| && Scanned(a, attempt, now, events, n, seen, completed)
    requires Acceptable(a, attempt, now, events[n]) && !Execution(a, events[n])
    ensures Scanned(a, attempt, now, events, n + 1, seen, completed)
  {
    hide CompletesAt, Acceptable;
    if completed {
      CompletionStays(a, events, n);
    }
  }

  lemma ScanTakes(a: Artifact, attempt: int, now: int, events: seq<Event>, n: nat, seen: set<EventId>, completed: bool)
    requires Phased(a) && n < |events| && Scanned(a, attempt, now, events, n, seen, completed)
    requires Acceptable(a, attempt, now, events[n]) && Execution(a, events[n]) && events[n].id !in seen
    requires !events[n].typ.Completed? && (completed ==> !StepWork(events[n].typ))
    ensures Scanned(a, attempt, now, events, n + 1, seen + {events[n].id}, completed)
  {
    hide CompletesAt, Acceptable;
    if completed {
      CompletionStays(a, events, n);
    }
    SeenGrows(a, attempt, now, events, n, seen);
  }

  lemma SeenGrows(a: Artifact, attempt: int, now: int, events: seq<Event>, n: nat, seen: set<EventId>)
    requires Phased(a) && n < |events| && Sound(a, attempt, now, events, n) && SeenUpTo(a, events, n, seen)
    requires Acceptable(a, attempt, now, events[n]) && Execution(a, events[n]) && events[n].id !in seen
    ensures Sound(a, attempt, now, events, n + 1) && SeenUpTo(a, events, n + 1, seen + {events[n].id})
  {
    hide Acceptable, Execution;
    forall i, j | 0 <= i < j < n + 1
      ensures !Repeats(a, events, i, j)
    {
      if j == n && Execution(a, events[i]) {
        assert events[i].id in seen;
      }
    }
  }

  lemma ScanCompletes(a: Artifact, attempt: int, now: int, events: seq<Event>, n: nat, seen: set<EventId>)
    requires Phased(a) && n < |events| && Scanned(a, attempt, now, events, n, seen, false)
    requires Acceptable(a, attempt, now, events[n]) && Execution(a, events[n]) && events[n].id !in seen
    requires events[n].typ.Completed? && AllHappened(a, events, n)
    ensures Scanned(a, attempt, now, events, n + 1, seen + {events[n].id}, true)
  {
    hide AllHappened, Acceptable;
    assert CompletesAt(a, events, n, n + 1);
    SeenGrows(a, attempt, now, events, n, seen);
  }

  /** The four ways an event can end the pass without a verdict of completion. */
  lemma BadEventRefutes(a: Artifact, attempt: int, now: int, events: seq<Event>, n: nat, seen: set<EventId>, completed: bool)
    requires Phased(a) && n < |events| && Scanned(a, attempt, now, events, n, seen, completed)
    requires
      || !Acceptable(a, attempt, now, events[n])
      || (Execution(a, events[n]) && events[n].id in seen)
      || (Execution(a, events[n]) && completed && StepWork(events[n].typ))
      || (Execution(a, events[n]) && events[n].typ.Completed? && !AllHappened(a, events, n))
    ensures !Complete(a, attempt, now, events)
  {
    hide AllHappened;
    if Complete(a, attempt, now, events) {
      assert Acceptable(a, attempt, now, events[n]);
      var k :| CompletesAt(a, events, k, |events|);
      if events[n].id in seen {
        var i :| 0 <= i < n && Execution(a, events[i]) && events[i].id == events[n].id;
        if Repeats(a, events, i, n) {
        }
      } else if completed && StepWork(events[n].typ) {
        var m :| CompletesAt(a, events, m, n);
        OneCompletion(a, attempt, now, events, |events|, m, k);
      } else {
        OneCompletion(a, attempt, now, events, |events|, n, k);
      }
      assert false;
    }
  }

  /** One pass accepts exactly the complete logs. */
  method CompletionAuditMatches(a: Artifact, attempt: int, events: seq<Event>, now: int) returns (ok: bool)
    requires Phased(a)
    ensures ok <==> Complete(a, attempt, now, events)
  {
    hide Scanned, Complete, AllHappened, RequiredSeen, TargetOf, Phased;
    var seen: set<EventId> := {};
    var completed := false;
    ScanStarts(a, attempt, now, events);
    for n := 0 to |events|
      invariant Scanned(a, attempt, now, events, n, seen, completed)
    {
      var event := events[n];
      if !Relevant(a, event) {
        ScanSkips(a, attempt, now, events, n, seen, completed);
        continue;
      }
      if !BoundEvent(a, attempt, now, event) {
        BadEventRefutes(a, attempt, now, events, n, seen, completed);
        return false;
      }
      if event.typ.CompletionObserved? {
        ScanSkips(a, attempt, now, events, n, seen, completed);
        continue;
      }
      if event.id != LifecycleEventId(event) || event.id in seen || !Shaped(a, event) {
        BadEventRefutes(a, attempt, now, events, n, seen, completed);
        return false;
      }
      if StepWork(event.typ) && completed {
        BadEventRefutes(a, attempt, now, events, n, seen, completed);
        return false;
      }
      if event.typ.Completed? {
        var required := RequiredCompletionAudit(a, attempt, seen + {event.id});
        RequiredWithCompletion(a, attempt, now, events, n, seen, completed);
        if !required {
          BadEventRefutes(a, attempt, now, events, n, seen, completed);
          return false;
        }
        SecondCompletionRepeats(a, attempt, now, events, n, seen, completed);
        ScanCompletes(a, attempt, now, events, n, seen);
        completed := true;
      } else {
        ScanTakes(a, attempt, now, events, n, seen, completed);
      }
      seen := seen + {event.id};
    }
    ScanEnds(a, attempt, now, events, seen, completed);
    ok := completed;
  }

  lemma ScanStarts(a: Artifact, attempt: int, now: int, events: seq<Event>)
    requires Phased(a)
    ensures Scanned(a, attempt, now, events, 0, {}, false)
  {}

  lemma ScanEnds(a: Artifact, attempt: int, now: int, events: seq<Event>, seen: set<EventId>, completed: bool)
    requires Phased(a) && Scanned(a, attempt, now, events, |events|, seen, completed)
    ensures completed <==> Complete(a, attempt, now, events)
  {
    hide AllHappened, Acceptable;
  }

  /** The completion event itself adds nothing that is required before it. */
  lemma RequiredWithCompletion(
    a: Artifact, attempt: int, now: int, events: seq<Event>, n: nat, seen: set<EventId>, completed: bool)
    requires Phased(a) && n < |events| && Scanned(a, attempt, now, events, n, seen, completed)
    requires events[n].typ.Completed? && events[n].id == LifecycleEventId(events[n])
    ensures RequiredSeen(a, attempt, seen + {events[n].id}) <==> AllHappened(a, events, n)
  {
    hide AllHappened, Sound, SeenUpTo, CompletesAt;
    RequiredIsHappened(a, attempt, now, events, n, seen);
    var with := seen + {events[n].id};
    forall i | 0 <= i < |a.phases|
      ensures PhaseRequired(a, attempt, with, a.phases[i]) <==> PhaseRequired(a, attempt, seen, a.phases[i])
    {
      SameRequirements(a, attempt, seen, events[n].id, a.phases[i]);
    }
  }

  lemma SameRequirements(a: Artifact, attempt: int, seen: set<EventId>, id: EventId, p: Phase)
    requires |p.stepIds| > 0 && id.LifecycleId? && id.typ.Completed?
    ensures PhaseRequired(a, attempt, seen + {id}, p) <==> PhaseRequired(a, attempt, seen, p)
  {
    assert forall t: EventType, step: string | !t.Completed? ::
        Has(a, attempt, seen + {id}, t, step) <==> Has(a, attempt, seen, t, step);
  }

  /** Once completed, a second completion carries an identifier already seen. */
  lemma SecondCompletionRepeats(
    a: Artifact, attempt: int, now: int, events: seq<Event>, n: nat, seen: set<EventId>, completed: bool)
    requires Phased(a) && n < |events| && Scanned(a, attempt, now, events, n, seen, completed)
    requires Acceptable(a, attempt, now, events[n]) && Execution(a, events[n]) && events[n].id !in seen
    requires events[n].typ.Completed?
    ensures !completed
  {
    hide AllHappened;
    if completed {
      var k :| CompletesAt(a, events, k, n);
      SeenGrows(a, attempt, now, events, n, seen);
      OneCompletion(a, attempt, now, events, n + 1, k, n);
    }
  }

  // ---------- observations ----------

  /** What is appended after a proven observation. */
  function Observation(a: Artifact, attempt: int, uid: string, generation: int, at: int): Event {
    Event(ObservationId(uid, generation, a.digest, attempt), CompletionObserved, a.digest, TargetOf(a), a.digest,
          a.planDigest, a.bundleDigest, "", "", at, attempt)
  }

  lemma HappenedAppend(a: Artifact, events: seq<Event>, e: Event, n: nat, t: EventType, step: string)
    requires n <= |events|
    ensures Happened(a, events + [e], n, t, step) <==> Happened(a, events, n, t, step)
  {
    if Happened(a, events, n, t, step) {
      var i :| 0 <= i < n && Execution(a, events[i]) && events[i].typ == t && events[i].stepId == step;
      assert (events + [e])[i] == events[i];
    }
    if Happened(a, events + [e], n, t, step) {
      var i :| 0 <= i < n && Execution(a, (events + [e])[i]) && (events + [e])[i].typ == t && (events + [e])[i].stepId == step;
      assert (events + [e])[i] == events[i];
    }
  }

  lemma AllHappenedAppend(a: Artifact, events: seq<Event>, e: Event, n: nat)
    requires Phased(a) && n <= |events|
    ensures AllHappened(a, events + [e], n) <==> AllHappened(a, events, n)
  {
    hide Happened;
    forall t: EventType, step: string
      ensures Happened(a, events + [e], n, t, step) <==> Happened(a, events, n, t, step)
    {
      HappenedAppend(a, events, e, n, t, step);
    }
    forall i | 0 <= i < |a.phases|
      ensures PhaseHappened(a, events + [e], n, a.phases[i]) <==> PhaseHappened(a, events, n, a.phases[i])
    {
    }
  }

  lemma CompletesAtAppend(a: Artifact, events: seq<Event>, e: Event, k: int)
    requires Phased(a) && !Execution(a, e)
    ensures CompletesAt(a, events + [e], k, |events| + 1) <==> CompletesAt(a, events, k, |events|)
  {
    hide AllHappened;
    var more := events + [e];
    assert forall i | 0 <= i < |events| :: more[i] == events[i];
    if 0 <= k < |events| {
      AllHappenedAppend(a, events, e, k);
    }
  }

  lemma SoundAppend(a: Artifact, attempt: int, now: int, events: seq<Event>, e: Event)
    requires Phased(a) && !Execution(a, e)
    ensures Sound(a, attempt, now, events + [e], |events| + 1) <==>
            Sound(a, attempt, now, events, |events|) && Acceptable(a, attempt, now, e)
  {
    hide Acceptable;
    var more := events + [e];
    assert more[|events|] == e;
    assert forall i | 0 <= i < |events| :: more[i] == events[i];
    if Sound(a, attempt, now, events, |events|) {
      forall i, j | 0 <= i < j < |more|
        ensures !Repeats(a, more, i, j)
      {
        assert j < |events| ==> !Repeats(a, events, i, j);
      }
    }
    if Sound(a, attempt, now, more, |more|) {
      forall i, j | 0 <= i < j < |events|
        ensures !Repeats(a, events, i, j)
      {
        assert !Repeats(a, more, i, j);
      }
    }
  }

  /** An event that is no execution evidence matters only if it is about the artifact and badly bound. */
  lemma AppendedVerdict(a: Artifact, attempt: int, now: int, events: seq<Event>, e: Event)
    requires Phased(a) && !Execution(a, e)
    ensures Complete(a, attempt, now, events + [e]) <==>
            Complete(a, attempt, now, events) && (Relevant(a, e) ==> BoundEvent(a, attempt, now, e))
  {
    hide Sound, CompletesAt;
    SoundAppend(a, attempt, now, events, e);
    var more := events + [e];
    assert |more| == |events| + 1;
    if Completes(a, events, |events|) {
      var k :| CompletesAt(a, events, k, |events|);
      CompletesAtAppend(a, events, e, k);
      assert CompletesAt(a, more, k, |more|);
    }
    if Completes(a, more, |more|) {
      var k :| CompletesAt(a, more, k, |more|);
      CompletesAtAppend(a, events, e, k);
    }
  }

  /**
   An observation of an execution the log proves complete leaves every verdict as it was,
   for every artifact, attempt and later clock reading, if and only if it is not dated
   before the artifact.
   */
  lemma ObservationIsInvisible(
    a: Artifact, attempt: int, events: seq<Event>, uid: string, generation: int, at: int, clock: int)
    requires Phased(a) && Complete(a, attempt, clock, events) && at <= clock
    ensures a.createdAt <= at <==>
      forall b: Artifact, n: int, now: int | Phased(b) && (b.digest == a.digest ==> b == a) && clock <= now ::
        Complete(b, n, now, events + [Observation(a, attempt, uid, generation, at)]) <==> Complete(b, n, now, events)
  {
    hide Complete;
    var o := Observation(a, attempt, uid, generation, at);
    forall b: Artifact, n: int, now: int | Phased(b) && (b.digest == a.digest ==> b == a) && clock <= now && a.createdAt <= at
      ensures Complete(b, n, now, events + [o]) <==> Complete(b, n, now, events)
    {
      AppendedVerdict(b, n, now, events, o);
      if b == a && Complete(a, n, now, events) {
        SameAttempt(a, attempt, clock, n, now, events);
      }
    }
    if a.createdAt > at {
      AppendedVerdict(a, attempt, clock, events, o);
      assert Complete(a, attempt, clock, events + [o]) != Complete(a, attempt, clock, events);
    }
  }

  /** A log proves one attempt only. */
  lemma SameAttempt(a: Artifact, m: int, now: int, n: int, later: int, events: seq<Event>)
    requires Phased(a) && Complete(a, m, now, events) && Complete(a, n, later, events)
    ensures m == n
  {
    hide AllHappened;
    var k :| CompletesAt(a, events, k, |events|);
    assert Acceptable(a, m, now, events[k]) && Acceptable(a, n, later, events[k]);
  }

  /** What a clock reading proves, every later reading proves. */
  lemma VerdictOutlivesClock(a: Artifact, attempt: int, events: seq<Event>, now: int, later: int)
    requires Phased(a) && now <= later && Complete(a, attempt, now, events)
    ensures Complete(a, attempt, later, events)
  {
    hide CompletesAt, Shaped;
    forall i | 0 <= i < |events|
      ensures Acceptable(a, attempt, later, events[i])
    {
      assert Acceptable(a, attempt, now, events[i]);
    }
  }
}
