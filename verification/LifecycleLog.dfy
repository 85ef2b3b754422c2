/** The lifecycle log: a hash chain of events in one file, appended to at most once per event identity. */
module LifecycleLog {
  import opened Options
  import opened HashChain
  import opened ExecutionTypes
  import opened CompletionAudit

  predicate HasId(line: Option<Record<Event>>, id: EventId) { line.Some? && line.value.event.id == id }

  predicate Logged(lines: Lines<Event>, id: EventId) {
    exists i :: 0 <= i < |lines| && HasId(lines[i], id)
  }

  /** The log holds another event under this identity. */
  predicate Conflicts(lines: Lines<Event>, e: Event) {
    !e.id.NoId? && exists i :: 0 <= i < |lines| && HasId(lines[i], e.id) && !SameEvent(lines[i].value.event, e)
  }

  /** No two records share a nonempty event identity. */
  ghost predicate UniqueIds(lines: Lines<Event>) {
    forall i, j | 0 <= i < j < |lines| && lines[i].Some? && lines[j].Some? && !lines[i].value.event.id.NoId? ::
      lines[i].value.event.id != lines[j].value.event.id
  }

  /** What a successful append leaves behind. */
  function Appended(lines: Lines<Event>, e: Event): Lines<Event> {
    if !e.id.NoId? && Logged(lines, e.id) then lines else lines + [Some(NextRecord(lines, e))]
  }

  lemma AppendedKeepsLog(lines: Lines<Event>, e: Event)
    requires Chain(lines) && UniqueIds(lines)
    ensures Chain(Appended(lines, e)) && UniqueIds(Appended(lines, e)) && lines <= Appended(lines, e)
    ensures Logged(Appended(lines, e), e.id)
  {
    ChainGrows(lines, e);
    if Appended(lines, e) != lines {
      assert HasId(Appended(lines, e)[|lines|], e.id);
      forall i | 0 <= i < |lines| && !e.id.NoId?
        ensures !HasId(lines[i], e.id)
      {
      }
    }
  }

  /** Events of one artifact, as a reader of the file collects them. */
  function EventsFor(digest: string, lines: Lines<Event>): seq<Event> {
    if lines == [] then []
    else
      var rest, last := EventsFor(digest, lines[..|lines| - 1]), lines[|lines| - 1];
      if last.Some? && Concerns(digest, last.value.event) then rest + [last.value.event] else rest
  }

  predicate Concerns(digest: string, e: Event) { e.artifactDigest == digest || e.executionId == digest }

  /** The file is intact and proves the execution complete. */
  ghost predicate Proven(lines: Lines<Event>, a: Artifact, attempt: int, now: int)
    requires Phased(a)
  {
    Chain(lines) && Complete(a, attempt, now, EventsFor(a.digest, lines))
  }

  lemma EventsForAppend(digest: string, lines: Lines<Event>, r: Record<Event>)
    ensures EventsFor(digest, lines + [Some(r)]) ==
            EventsFor(digest, lines) + if Concerns(digest, r.event) then [r.event] else []
  {
    assert (lines + [Some(r)])[..|lines|] == lines;
  }

  datatype Evidence = Evidence(
    proven: bool, artifactDigest: string, planDigest: string, databaseIdentity: string, environment: string,
    fingerprint: string, attempt: int, confirmedSteps: int, observedAt: int)

  /** The evidence is a proof about this artifact, not from the future. */
  predicate ProofOf(ev: Evidence, a: Artifact, uid: string, generation: int, clock: int) {
    && uid != "" && generation >= 1 && ev.proven && ev.artifactDigest == a.digest && ev.planDigest == a.planDigest
    && ev.databaseIdentity == a.databaseIdentity && ev.environment == a.environment && ev.attempt >= 1
    && ev.confirmedSteps == |a.steps| && ev.fingerprint == a.toFingerprint && ev.observedAt <= clock
  }

  // ---------- the file ----------

  class FileAudit {
    var lines: Lines<Event>

    constructor ()
      ensures lines == []
    {
      lines := [];
    }

    /**
     The scan before an append: is the chain intact and free of conflicts, is the event
     already there, and which events concern the same execution.
     */
    method Scan(e: Event) returns (ok: bool, duplicate: bool, events: seq<Event>)
      ensures ok <==> Chain(lines) && !Conflicts(lines, e)
      ensures ok ==> (duplicate <==> !e.id.NoId? && Logged(lines, e.id))
      ensures ok && e.artifactDigest == e.executionId ==> events == EventsFor(e.artifactDigest, lines)
    {
      ok, duplicate, events := true, false, [];
      for i := 0 to |lines|
        invariant ok && forall k | 0 <= k < i :: Links(lines, k)
        invariant e.id.NoId? ==> !duplicate
        invariant !e.id.NoId? ==> forall k | 0 <= k < i && HasId(lines[k], e.id) :: SameEvent(lines[k].value.event, e)
        invariant !e.id.NoId? ==> (duplicate <==> exists k :: 0 <= k < i && HasId(lines[k], e.id))
        invariant e.artifactDigest == e.executionId ==> events == EventsFor(e.artifactDigest, lines[..i])
      {
        hide TailHash, RecordHash;
        if !Links(lines, i) {
          return false, duplicate, events;
        }
        var r := lines[i].value;
        assert lines[..i + 1][..i] == lines[..i];
        if r.event.artifactDigest == e.artifactDigest || r.event.executionId == e.executionId {
          events := events + [r.event];
        }
        if !e.id.NoId? && r.event.id == e.id {
          assert HasId(lines[i], e.id);
          if !SameEvent(r.event, e) {
            return false, duplicate, events;
          }
          duplicate := true;
        }
      }
      assert lines[..|lines|] == lines;
    }

    /** Writing and syncing one line; a failed sync may leave it written. `calm` rules failures out. */
    method Write(r: Record<Event>, calm: bool) returns (ok: bool)
      modifies this
      ensures lines == old(lines) || lines == old(lines) + [Some(r)]
      ensures ok ==> lines == old(lines) + [Some(r)]
      ensures calm ==> ok
    {
      var written: bool := *;
      var synced: bool := *;
      ok := synced || calm;
      if written || ok {
        lines := lines + [Some(r)];
      }
    }

    /** Appends an event once. A refusal changes nothing; a failed write leaves the log before or after the append. */
    method AppendDurable(e: Event, calm: bool) returns (ok: bool)
      modifies this
      ensures calm ==> (ok <==> old(Chain(lines) && !Conflicts(lines, e)))
      ensures ok ==> old(Chain(lines) && !Conflicts(lines, e)) && lines == Appended(old(lines), e)
      ensures !ok ==> lines == old(lines) || (old(Chain(lines) && !Conflicts(lines, e)) && lines == Appended(old(lines), e))
    {
      hide Chain, Conflicts;
      var intact, duplicate, events := Scan(e);
      if !intact {
        return false;
      }
      if duplicate {
        var synced: bool := *;
        return synced || calm;
      }
      ok := Write(NextRecord(lines, e), calm);
    }

    /**
     Appends the observation of a completion the log itself proves. If the observation is
     not dated before the artifact, no verdict about any artifact, attempt or later clock
     reading changes.
     */
    method AppendCompletionObservation(a: Artifact, ev: Evidence, uid: string, generation: int, clock: int, later: int)
      returns (ok: bool)
      requires Phased(a) && clock <= later
      modifies this
      ensures ok ==> ProofOf(ev, a, uid, generation, clock) && old(Proven(lines, a, ev.attempt, later))
      ensures ok ==> lines == Appended(old(lines), Observation(a, ev.attempt, uid, generation, ev.observedAt))
      ensures old(lines) <= lines
      ensures a.createdAt <= ev.observedAt ==>
        forall b: Artifact, n: int, now: int | Phased(b) && (b.digest == a.digest ==> b == a) && later <= now ::
          Proven(lines, b, n, now) <==> old(Proven(lines, b, n, now))
    {
      hide Chain, Conflicts, Complete, Appended;
      if !ProofOf(ev, a, uid, generation, clock) {
        return false;
      }
      var e := Observation(a, ev.attempt, uid, generation, ev.observedAt);
      var intact, duplicate, events := Scan(e);
      if !intact {
        return false;
      }
      var complete := CompletionAuditMatches(a, ev.attempt, events, later);
      if !complete {
        return false;
      }
      AppendedCases(lines, e);
      if duplicate {
        ok := *;
        return;
      }
      ok := Write(NextRecord(lines, e), false);
      if lines != old(lines) && a.createdAt <= ev.observedAt {
        ObservationKeepsVerdicts(old(lines), a, ev.attempt, uid, generation, ev.observedAt, later);
      }
    }
  }

  lemma AppendedCases(lines: Lines<Event>, e: Event)
    ensures Appended(lines, e) ==
            if !e.id.NoId? && Logged(lines, e.id) then lines else lines + [Some(NextRecord(lines, e))]
  {}

  lemma ObservationKeepsVerdicts(
    lines: Lines<Event>, a: Artifact, attempt: int, uid: string, generation: int, at: int, clock: int)
    requires Phased(a) && Proven(lines, a, attempt, clock) && a.createdAt <= at <= clock
    ensures var more := lines + [Some(NextRecord(lines, Observation(a, attempt, uid, generation, at)))];
      forall b: Artifact, n: int, now: int | Phased(b) && (b.digest == a.digest ==> b == a) && clock <= now ::
        Proven(more, b, n, now) <==> Proven(lines, b, n, now)
  {
    hide Complete, EventsFor;
    var o := Observation(a, attempt, uid, generation, at);
    var more := lines + [Some(NextRecord(lines, o))];
    ChainGrows(lines, o);
    ObservationIsInvisible(a, attempt, EventsFor(a.digest, lines), uid, generation, at, clock);
    forall b: Artifact, n: int, now: int | Phased(b) && (b.digest == a.digest ==> b == a) && clock <= now
      ensures Proven(more, b, n, now) <==> Proven(lines, b, n, now)
    {
      EventsForAppend(b.digest, lines, NextRecord(lines, o));
      var before := EventsFor(b.digest, lines);
      if b.digest == a.digest {
        assert Complete(b, n, now, before + [o]) <==> Complete(b, n, now, before);
      } else {
        assert before + [] == before;
      }
    }
  }
}
