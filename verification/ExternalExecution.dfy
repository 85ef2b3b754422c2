/** The events of an execution whose transaction its caller commits. */
module ExternalExecution {
  import opened ExecutionTypes

  /** One attempt at an artifact, and the last step it confirmed. */
  datatype Attempt = Attempt(artifact: Artifact, number: int, lastConfirmed: string)

  /** The event of this type for this step, without its time. */
  function EventOf(x: Attempt, t: EventType, step: string): Event {
    var a := x.artifact;
    Event(LifecycleId(x.number, a.digest, t, step), t, a.digest, TargetOf(a), a.digest, a.planDigest, a.bundleDigest,
          step, "", 0, x.number)
  }

  /** One confirmation per executable step with this identifier. */
  function StepEvents(x: Attempt, id: string, n: nat): seq<Event>
    requires n <= |x.artifact.steps|
  {
    if n == 0 then []
    else
      var s := x.artifact.steps[n - 1];
      StepEvents(x, id, n - 1) + if s.id == id && s.kind.Executable? then [EventOf(x, Confirmed, id)] else []
  }

  function ListedEvents(x: Attempt, ids: seq<string>, n: nat): seq<Event>
    requires n <= |ids|
  {
    if n == 0 then [] else ListedEvents(x, ids, n - 1) + StepEvents(x, ids[n - 1], |x.artifact.steps|)
  }

  function PhaseEvents(x: Attempt, n: nat): seq<Event>
    requires n <= |x.artifact.phases|
  {
    if n == 0 then []
    else
      var ids := x.artifact.phases[n - 1].stepIds;
      PhaseEvents(x, n - 1) + ListedEvents(x, ids, |ids|)
  }

  /** The commit, the confirmations phase by phase, the completion. */
  function EventsOf(x: Attempt): seq<Event> {
    [EventOf(x, TransactionCommitted, x.lastConfirmed)] + PhaseEvents(x, |x.artifact.phases|)
    + [EventOf(x, Completed, x.lastConfirmed)]
  }

  /** The same events, each with some time. */
  predicate Timed(events: seq<Event>, planned: seq<Event>) {
    |events| == |planned| && forall k | 0 <= k < |events| :: SameEvent(events[k], planned[k])
  }

  method Add(x: Attempt, events: seq<Event>, t: EventType, step: string, ghost planned: seq<Event>)
    returns (more: seq<Event>)
    requires Timed(events, planned)
    ensures Timed(more, planned + [EventOf(x, t, step)])
  {
    var now: int := *;
    more := events + [EventOf(x, t, step).(at := now)];
  }

  /** Lists the events of an execution, reading the clock for each. */
  method ExternalEvents(x: Attempt) returns (events: seq<Event>)
    ensures Timed(events, EventsOf(x))
  {
    hide EventOf, Timed;
    assert Timed([], []) by { NoneTimed(); }
    ghost var first := [EventOf(x, TransactionCommitted, x.lastConfirmed)];
    events := Add(x, [], TransactionCommitted, x.lastConfirmed, []);
    assert [] + first == first && first + PhaseEvents(x, 0) == first;
    for i := 0 to |x.artifact.phases|
      invariant Timed(events, first + PhaseEvents(x, i))
    {
      var ids := x.artifact.phases[i].stepIds;
      ghost var before := first + PhaseEvents(x, i);
      assert before + ListedEvents(x, ids, 0) == before;
      for j := 0 to |ids|
        invariant Timed(events, before + ListedEvents(x, ids, j))
      {
        events := AddStep(x, ids[j], events, before + ListedEvents(x, ids, j));
        assert before + ListedEvents(x, ids, j) + StepEvents(x, ids[j], |x.artifact.steps|) == before + ListedEvents(x, ids, j + 1);
      }
      assert before + ListedEvents(x, ids, |ids|) == first + PhaseEvents(x, i + 1);
    }
    events := Add(x, events, Completed, x.lastConfirmed, first + PhaseEvents(x, |x.artifact.phases|));
  }

  method AddStep(x: Attempt, id: string, events: seq<Event>, ghost planned: seq<Event>) returns (more: seq<Event>)
    requires Timed(events, planned)
    ensures Timed(more, planned + StepEvents(x, id, |x.artifact.steps|))
  {
    hide EventOf, Timed;
    more := events;
    assert planned + StepEvents(x, id, 0) == planned;
    for k := 0 to |x.artifact.steps|
      invariant Timed(more, planned + StepEvents(x, id, k))
    {
      ghost var before := planned + StepEvents(x, id, k);
      var s := x.artifact.steps[k];
      if s.id == id && s.kind.Executable? {
        more := Add(x, more, Confirmed, id, before);
        assert before + [EventOf(x, Confirmed, id)] == planned + StepEvents(x, id, k + 1);
      } else {
        assert StepEvents(x, id, k + 1) == StepEvents(x, id, k);
      }
    }
  }

  lemma NoneTimed()
    ensures Timed([], [])
  {}

  // ---------- an identity determines the event ----------

  predicate Of(x: Attempt, e: Event) { SameEvent(e, EventOf(x, e.typ, e.stepId)) }

  predicate AllOf(x: Attempt, events: seq<Event>) { forall k | 0 <= k < |events| :: Of(x, events[k]) }

  lemma {:induction false} StepEventsOf(x: Attempt, id: string, n: nat)
    requires n <= |x.artifact.steps|
    ensures AllOf(x, StepEvents(x, id, n))
  {
    if n > 0 {
      StepEventsOf(x, id, n - 1);
    }
  }

  lemma {:induction false} ListedEventsOf(x: Attempt, ids: seq<string>, n: nat)
    requires n <= |ids|
    ensures AllOf(x, ListedEvents(x, ids, n))
  {
    if n > 0 {
      ListedEventsOf(x, ids, n - 1);
      StepEventsOf(x, ids[n - 1], |x.artifact.steps|);
    }
  }

  lemma {:induction false} PhaseEventsOf(x: Attempt, n: nat)
    requires n <= |x.artifact.phases|
    ensures AllOf(x, PhaseEvents(x, n))
  {
    if n > 0 {
      PhaseEventsOf(x, n - 1);
      var ids := x.artifact.phases[n - 1].stepIds;
      ListedEventsOf(x, ids, |ids|);
    }
  }

  /** Every event carries an identity that names its attempt, artifact, type and step. */
  lemma EventsAreIdentified(x: Attempt, events: seq<Event>, k: nat)
    requires Timed(events, EventsOf(x)) && k < |events|
    ensures Of(x, events[k]) && events[k].id == LifecycleId(x.number, x.artifact.digest, events[k].typ, events[k].stepId)
  {
    PhaseEventsOf(x, |x.artifact.phases|);
    var planned := EventsOf(x);
    assert AllOf(x, planned);
    assert SameEvent(events[k], planned[k]) && Of(x, planned[k]);
  }

  /** If digests tell artifacts apart, events of one identity are one event, up to their time. */
  lemma SameIdentitySameEvent(x: Attempt, xs: seq<Event>, j: nat, y: Attempt, ys: seq<Event>, k: nat)
    requires Timed(xs, EventsOf(x)) && Timed(ys, EventsOf(y)) && j < |xs| && k < |ys| && xs[j].id == ys[k].id
    requires x.artifact.digest == y.artifact.digest ==> x.artifact == y.artifact
    ensures SameEvent(xs[j], ys[k])
  {
    EventsAreIdentified(x, xs, j);
    EventsAreIdentified(y, ys, k);
  }
}
