/** A completion is proven by history, state and log together, with history and state read again after the log. */
module CompletionObservation {
  import opened Options
  import opened ExecutionTypes
  import opened CompletionAudit
  import opened CompletionHistory

  datatype RuntimeState = RuntimeState(fingerprint: string, sourceRevision: string, environment: string, databaseIdentity: string)

  datatype AuditRead = BrokenChain | NoAudit | Events(events: seq<Event>)

  datatype Refusal =
    | AuthorizationInvalid | UnsupportedPlan | HistoryRefused(answer: Answer) | StateUnavailable | StateDrifted
    | AuditInvalid | AuditUnavailable | AuditIncomplete | HistoryChanged

  datatype Outcome = Proven(attempt: int, confirmedSteps: nat, fingerprint: string, observedAt: int) | Refused(why: Refusal)

  function Lower(s: string): (t: string)
    ensures |t| == |s|
  {
    seq(|s|, i requires 0 <= i < |s| => if 'A' <= s[i] <= 'Z' then (s[i] as int + 32) as char else s[i])
  }

  predicate StateMatches(a: Artifact, s: RuntimeState) {
    && Lower(s.fingerprint) == Lower(a.toFingerprint) && s.sourceRevision == a.sourceRevision
    && s.environment == a.environment && s.databaseIdentity == a.databaseIdentity
  }

  /** An ordinary declarative plan: some steps, all executable, in phases that all have steps. */
  ghost predicate Eligible(a: Artifact) {
    && a.steps != [] && !a.fromManifest && a.transitionMode
    && (forall i | 0 <= i < |a.steps| :: a.steps[i].kind.Executable?)
    && (forall i | 0 <= i < |a.phases| :: |a.phases[i].stepIds| > 0)
  }

  method CompletionEligible(a: Artifact) returns (ok: bool)
    ensures ok <==> Eligible(a)
  {
    if |a.steps| == 0 || a.fromManifest || !a.transitionMode {
      return false;
    }
    for i := 0 to |a.steps|
      invariant forall k | 0 <= k < i :: a.steps[k].kind.Executable?
    {
      if !a.steps[i].kind.Executable? {
        return false;
      }
    }
    for i := 0 to |a.phases|
      invariant forall k | 0 <= k < i :: |a.phases[k].stepIds| > 0
    {
      if |a.phases[i].stepIds| == 0 {
        return false;
      }
    }
    ok := true;
  }

  method ReadCompletionState(a: Artifact, s: Option<RuntimeState>) returns (failed: Option<Refusal>)
    ensures failed == if s.None? then Some(StateUnavailable) else if StateMatches(a, s.value) then None else Some(StateDrifted)
  {
    if s.None? {
      return Some(StateUnavailable);
    }
    failed := if StateMatches(a, s.value) then None else Some(StateDrifted);
  }

  /**
   `before` and `after` are the two history reads, `first` and `second` the two state
   reads around the log. A proof means every step was confirmed exactly once in one
   attempt by both history reads, and the log shows that attempt complete.
   */
  method ObserveCompletion(
    a: Artifact, before: History, first: Option<RuntimeState>, audit: AuditRead, second: Option<RuntimeState>,
    after: History, now: int) returns (r: Outcome)
    requires a.phases != []
    ensures r.Proven? <==>
      && a.createdAt <= now && Eligible(a)
      && before.Rows? && after.Rows? && before.whole && after.whole
      && first.Some? && StateMatches(a, first.value) && second.Some? && StateMatches(a, second.value)
      && audit.Events?
      && exists n :: EveryStepOnce(a, before.rows, n) && EveryStepOnce(a, after.rows, n) && Complete(a, n, now, audit.events)
    ensures r.Proven? ==>
      && EveryStepOnce(a, before.rows, r.attempt) && EveryStepOnce(a, after.rows, r.attempt)
      && Complete(a, r.attempt, now, audit.events)
      && r.confirmedSteps == |a.steps| && r.observedAt == now && r.fingerprint == second.value.fingerprint
    ensures r.Refused? ==> match r.why
      case AuthorizationInvalid => now < a.createdAt
      case UnsupportedPlan => !Eligible(a)
      case HistoryRefused(answer) => !answer.Attempt? && (answer == Judge(a, before) || answer == Judge(a, after))
      case StateUnavailable => first.None? || second.None?
      case StateDrifted => (first.Some? && !StateMatches(a, first.value)) || (second.Some? && !StateMatches(a, second.value))
      case AuditInvalid => audit.BrokenChain?
      case AuditUnavailable => audit.NoAudit?
      case AuditIncomplete => Eligible(a) && audit.Events? && Judge(a, before).Attempt? && !Complete(a, Judge(a, before).attempt, now, audit.events)
      case HistoryChanged => Judge(a, before) != Judge(a, after)
  {
    hide EveryStepOnce, Complete, StateMatches, Judge;
    if now < a.createdAt {
      return Refused(AuthorizationInvalid);
    }
    var eligible := CompletionEligible(a);
    if !eligible {
      return Refused(UnsupportedPlan);
    }
    var answer := ReadCompletedAttempt(a, before);
    OnlyAttempt(a, before);
    if !answer.Attempt? {
      return Refused(HistoryRefused(answer));
    }
    var failed := ReadCompletionState(a, first);
    if failed.Some? {
      return Refused(failed.value);
    }
    if audit.BrokenChain? {
      return Refused(AuditInvalid);
    } else if audit.NoAudit? {
      return Refused(AuditUnavailable);
    }
    var complete := CompletionAuditMatches(a, answer.attempt, audit.events, now);
    if !complete {
      return Refused(AuditIncomplete);
    }
    failed := ReadCompletionState(a, second);
    if failed.Some? {
      return Refused(failed.value);
    }
    var final := ReadCompletedAttempt(a, after);
    OnlyAttempt(a, after);
    if !final.Attempt? {
      return Refused(HistoryRefused(final));
    }
    if final.attempt != answer.attempt {
      return Refused(HistoryChanged);
    }
    r := Proven(answer.attempt, |a.steps|, second.value.fingerprint, now);
  }

  /** A history read reports an attempt exactly when it shows every step once in it. */
  lemma OnlyAttempt(a: Artifact, h: History)
    requires a.steps != []
    ensures Judge(a, h).Attempt? ==> h.Rows? && h.whole && EveryStepOnce(a, h.rows, Judge(a, h).attempt)
    ensures h.Rows? && h.whole ==> forall n | EveryStepOnce(a, h.rows, n) :: Judge(a, h) == Attempt(n)
  {
    hide EveryStepOnce;
    if h.Rows? {
      forall n
        ensures Judge(a, h) == Attempt(n) <==> h.whole && EveryStepOnce(a, h.rows, n)
      {
        AttemptMeansEveryStepOnce(a, h.rows, h.whole, n);
      }
    }
  }
}
