/**
 Retry scheduling of the operator: one stored state per resource, rewritten when an
 attempt ends and cleared by watch handlers, who may strike while an attempt is running.
 */
module RetryScheduler {
  import opened Options

  /** Times and delays in nanoseconds. */
  const SECOND := 1_000_000_000
  const DETERMINISTIC_RECHECK := 300 * SECOND

  datatype Outcome = NotAttempted | Success | Failure | Suspended

  /** `next` is the time before which an attempt with the same input is put off. */
  datatype Retry = Retry(
    uid: string, revision: nat, input: string, failures: nat, cumulative: nat, next: Option<int>, outcome: Outcome)

  const NOTHING := Retry("", 0, "", 0, 0, None, NotAttempted)

  /** What reading the resource gave; `input` is the digest of identity, generation, spec and annotations. */
  datatype Read = NotFound | ReadFailed | Found(uid: string, input: string)

  /** A running attempt: what it remembered when it began, and when that was. */
  datatype Attempt = Attempt(previous: Retry, read: Read, began: int)

  /** How an attempt ended. `requeueAfter` is what the reconciliation itself asked for. */
  datatype Report = Report(
    outcome: Outcome, awaitingApproval: bool, deterministic: bool, retryCount: nat, requeueAfter: nat, jitter: real)

  function Max(a: int, b: int): int { if a < b then b else a }

  function Min(a: int, b: int): int { if a < b then a else b }

  // ---------- delays ----------

  function PowerOfTwo(n: nat): (p: nat)
    ensures p >= 1
  {
    if n == 0 then 1 else 2 * PowerOfTwo(n - 1)
  }

  function Clamp(x: real): (y: real)
    ensures 0.0 <= y <= 1.0
  {
    if x < 0.0 then 0.0 else if x > 1.0 then 1.0 else x
  }

  /** Doubling from one second with at most a tenth more, never above a minute. */
  function TransientDelay(failures: int, jitter: real): (delay: int)
    ensures SECOND <= delay <= 60 * SECOND
    ensures failures <= 6 ==> delay <= Base(failures) + Base(failures) / 10 && Base(failures) <= delay
    ensures failures > 6 ==> delay == 60 * SECOND
  {
    var base := Base(failures);
    BaseBounds(failures);
    var extra := (base as real * 0.1 * Clamp(jitter)).Floor;
    ExtraBounds(base, Clamp(jitter));
    Min(60 * SECOND, base + extra)
  }

  function Base(failures: int): int { SECOND * PowerOfTwo(Min(Max(failures - 1, 0), 6)) }

  lemma BaseBounds(failures: int)
    ensures SECOND <= Base(failures)
    ensures if failures > 6 then Base(failures) == 64 * SECOND else Base(failures) <= 32 * SECOND
  {
    assert PowerOfTwo(0) == 1 && PowerOfTwo(1) == 2 && PowerOfTwo(2) == 4 && PowerOfTwo(3) == 8;
    assert PowerOfTwo(4) == 16 && PowerOfTwo(5) == 32 && PowerOfTwo(6) == 64;
  }

  lemma ExtraBounds(base: int, c: real)
    requires base >= 0 && base % 10 == 0 && 0.0 <= c <= 1.0
    ensures 0 <= (base as real * 0.1 * c).Floor <= base / 10
  {
    var tenth := base / 10;
    assert base == 10 * tenth;
    assert base as real == 10.0 * tenth as real;
    ScaledDown(tenth as real, c);
    assert base as real * 0.1 * c == tenth as real * c;
  }

  lemma ScaledDown(x: real, c: real)
    requires 0.0 <= x && 0.0 <= c <= 1.0
    ensures 0.0 <= x * c <= x
  {
    NonnegativeProduct(x, c);
    NonnegativeProduct(x, 1.0 - c);
    assert x * (1.0 - c) == x - x * c;
  }

  lemma NonnegativeProduct(a: real, b: real)
    requires 0.0 <= a && 0.0 <= b
    ensures 0.0 <= a * b
  {}

  // ---------- one resource ----------

  function Invalidated(r: Retry): Retry { r.(next := None, failures := 0, revision := r.revision + 1) }

  /** An attempt with the input last seen waits until its time. */
  predicate Deferred(stored: Retry, read: Read, now: int) {
    read.Found? && stored.input == read.input && stored.next.Some? && now < stored.next.value
  }

  /** What a starting attempt takes over from the stored state. */
  function Remembered(stored: Retry, read: Read): Retry {
    var previous := if read.Found? && stored.uid != read.uid then NOTHING.(revision := stored.revision) else stored;
    if read.Found? && previous.input != read.input then previous.(failures := 0) else previous
  }

  /** The delay an ended attempt asks for, zero for none. */
  function Delay(previous: Retry, r: Report): (d: int)
    ensures d >= 0
  {
    if r.outcome.Failure? then
      if r.deterministic then DETERMINISTIC_RECHECK else TransientDelay(previous.failures + 1, r.jitter)
    else if r.awaitingApproval then DETERMINISTIC_RECHECK
    else r.requeueAfter
  }

  function Cumulative(previous: Retry, r: Report): (c: nat)
    ensures c >= previous.cumulative && (r.outcome.Failure? ==> c > previous.cumulative)
  {
    var seen: nat := Max(previous.cumulative, r.retryCount);
    if r.outcome.Failure? && seen <= previous.cumulative then seen + 1 else seen
  }

  /** The state an ended attempt leaves, given what is stored by then. */
  function Scheduled(current: Retry, a: Attempt, r: Report): Retry {
    var previous := a.previous;
    var delay := Delay(previous, r);
    var uid := if a.read.Found? then a.read.uid else previous.uid;
    var input := if a.read.Found? then a.read.input else previous.input;
    var failures := if r.outcome.Failure? then previous.failures + 1 else 0;
    var next := if delay > 0 then Some(a.began + delay) else None;
    if current.revision != previous.revision
    then Retry(uid, current.revision, input, failures, Cumulative(previous, r), None, r.outcome)
    else Retry(uid, previous.revision, input, failures, Cumulative(previous, r), next, r.outcome)
  }

  // ---------- every run ----------

  datatype Sys = Sys(stored: Retry, running: Option<Attempt>)

  datatype Event = Begin(now: int, read: Read) | Invalidate | Finish(report: Report)

  /** Attempts of one resource never overlap; invalidations may come at any time. */
  ghost predicate Next(s: Sys, e: Event, t: Sys) {
    match e
    case Begin(now, read) =>
      && s.running.None?
      && t == if read.NotFound? then Sys(NOTHING, None)
              else if Deferred(s.stored, read, now) then s
              else s.(running := Some(Attempt(Remembered(s.stored, read), read, now)))
    case Invalidate => t == s.(stored := Invalidated(s.stored))
    case Finish(report) =>
      && s.running.Some? && (s.running.value.read.ReadFailed? ==> ReadFailure(report))
      && t == Sys(Scheduled(s.stored, s.running.value, report), None)
  }

  /** A failed read counts as a transient failure. */
  predicate ReadFailure(r: Report) { r.outcome.Failure? && !r.deterministic && r.retryCount == 0 }

  ghost predicate StepAt(run: seq<Sys>, events: seq<Event>, i: nat)
    requires |run| == |events| + 1 && i < |events|
  {
    Next(run[i], events[i], run[i + 1])
  }

  ghost predicate IsRun(run: seq<Sys>, events: seq<Event>) {
    && |run| == |events| + 1 && run[0].running.None?
    && forall i | 0 <= i < |events| :: StepAt(run, events, i)
  }

  predicate Starts(run: seq<Sys>, i: int) { 0 <= i < |run| - 1 && run[i].running.None? && run[i + 1].running.Some? }

  /** Some attempt began after step i and before state j. */
  ghost predicate BegunSince(run: seq<Sys>, i: nat, j: nat) { exists b :: i < b < j && Starts(run, b) }

  ghost predicate EndedSince(run: seq<Sys>, events: seq<Event>, i: nat, j: nat) {
    exists b, f :: i < b < f < j <= |events| && Starts(run, b) && events[f].Finish?
  }

  /** A running attempt remembers a revision the stored one has not fallen behind. */
  ghost predicate Monotone(s: Sys) { s.running.Some? ==> s.running.value.previous.revision <= s.stored.revision }

  lemma {:induction false} RunMonotone(run: seq<Sys>, events: seq<Event>, i: nat)
    requires IsRun(run, events) && i < |run|
    ensures Monotone(run[i])
  {
    if i > 0 {
      RunMonotone(run, events, i - 1);
      assert StepAt(run, events, i - 1);
    }
  }

  /**
   No stored delay survives an invalidation, not even one stored by an attempt that was
   running at the time: until an attempt begun afterwards ends, nothing is put off.
   */
  lemma {:induction false} NoDelaySurvivesInvalidation(run: seq<Sys>, events: seq<Event>, i: nat, j: nat)
    requires IsRun(run, events) && i < j < |run| && events[i].Invalidate? && !EndedSince(run, events, i, j)
    ensures run[j].stored.next.None?
    ensures run[j].running.Some? && !BegunSince(run, i, j) ==>
              run[j].running.value.previous.revision < run[j].stored.revision
  {
    hide Scheduled, Remembered;
    var s, e, t := run[j - 1], events[j - 1], run[j];
    assert StepAt(run, events, j - 1);
    if j == i + 1 {
      RunMonotone(run, events, i);
    } else {
      NoDelaySurvivesInvalidation(run, events, i, j - 1);
      if e.Finish? {
        LateScheduling(s.stored, s.running.value, e.report);
      } else if e.Begin? && t.running.Some? {
        assert Starts(run, j - 1);
      } else if BegunSince(run, i, j - 1) {
        var b :| i < b < j - 1 && Starts(run, b);
      }
    }
  }

  lemma LateScheduling(current: Retry, a: Attempt, r: Report)
    requires a.previous.revision < current.revision
    ensures Scheduled(current, a, r).next.None?
  {}

  // ---------- spacing of attempts ----------

  /** After the attempt ended at step f, only reads of the same input until step b. */
  ghost predicate Undisturbed(events: seq<Event>, f: nat, b: nat, input: string) {
    f < b <= |events| && forall k | f < k < b :: events[k].Begin? && events[k].read.Found? && events[k].read.input == input
  }

  lemma {:induction false} WaitsOnly(run: seq<Sys>, events: seq<Event>, f: nat, b: nat, input: string)
    requires IsRun(run, events) && Undisturbed(events, f, b, input) && events[f].Finish?
    requires forall k | f < k < b :: !Starts(run, k)
    ensures run[b] == run[f + 1]
  {
    hide Scheduled, Remembered;
    assert StepAt(run, events, f);
    if b > f + 1 {
      WaitsOnly(run, events, f, b - 1, input);
      assert StepAt(run, events, b - 1);
      assert !Starts(run, b - 1);
    }
  }

  /** The attempt that ended at step f was not invalidated while it ran. */
  predicate Undisputed(run: seq<Sys>, f: nat)
    requires f < |run|
  {
    run[f].running.Some? && run[f].stored.revision == run[f].running.value.previous.revision
  }

  /**
   With the same input, no invalidation and no failed read, the next attempt starts
   exactly when the delay is over: at or after that time, and at the first read then.
   */
  lemma NextAttemptWaits(run: seq<Sys>, events: seq<Event>, f: nat, b: nat)
    requires IsRun(run, events) && f < b < |events| && events[f].Finish? && Undisputed(run, f)
    requires var a := run[f].running.value; a.read.Found? && Undisturbed(events, f, b + 1, a.read.input)
    requires forall k | f < k < b :: !Starts(run, k)
    ensures var a, report := run[f].running.value, events[f].report;
            Delay(a.previous, report) > 0 ==> (Starts(run, b) <==> events[b].now >= a.began + Delay(a.previous, report))
  {
    var a := run[f].running.value;
    WaitsOnly(run, events, f, b, a.read.input);
    assert StepAt(run, events, f);
    assert StepAt(run, events, b);
  }

  /** Deterministic refusals are five minutes apart at least, transient failures one second at least and a minute at most. */
  lemma AttemptSpacing(run: seq<Sys>, events: seq<Event>, f: nat, b: nat)
    requires IsRun(run, events) && f < b < |events| && events[f].Finish? && Undisputed(run, f)
    requires var a := run[f].running.value; a.read.Found? && Undisturbed(events, f, b + 1, a.read.input)
    requires forall k | f < k < b :: !Starts(run, k)
    requires events[f].report.outcome.Failure?
    ensures var began, deterministic := run[f].running.value.began, events[f].report.deterministic;
            && (Starts(run, b) ==> events[b].now >= began + if deterministic then DETERMINISTIC_RECHECK else SECOND)
            && (events[b].now >= began + (if deterministic then DETERMINISTIC_RECHECK else 60 * SECOND) ==> Starts(run, b))
  {
    hide IsRun, Undisturbed, Starts;
    NextAttemptWaits(run, events, f, b);
  }

  // ---------- the retry count ----------

  /** A running attempt remembers the stored identity and count, or started over for a new identity. */
  ghost predicate Remembers(s: Sys) {
    s.running.Some? ==>
      var previous, read := s.running.value.previous, s.running.value.read;
      if read.Found? && read.uid != s.stored.uid then previous.cumulative == 0
      else previous.uid == s.stored.uid && previous.cumulative == s.stored.cumulative
  }

  lemma {:induction false} RunRemembers(run: seq<Sys>, events: seq<Event>, i: nat)
    requires IsRun(run, events) && i < |run|
    ensures Remembers(run[i])
  {
    if i > 0 {
      RunRemembers(run, events, i - 1);
      assert StepAt(run, events, i - 1);
    }
  }

  /** From state i to state j no deletion, and nothing but this identity, is seen. */
  ghost predicate SameResource(run: seq<Sys>, events: seq<Event>, i: nat, j: nat) {
    && i <= j < |run|
    && (run[i].running.Some? && run[i].running.value.read.Found? ==> run[i].running.value.read.uid == run[i].stored.uid)
    && (forall k | i <= k < j && k < |events| && events[k].Begin? ::
          !events[k].read.NotFound? && (events[k].read.Found? ==> events[k].read.uid == run[i].stored.uid))
  }

  ghost predicate Keeps(s: Sys, uid: string, count: nat) {
    && s.stored.uid == uid && s.stored.cumulative >= count
    && (s.running.Some? ==>
          && s.running.value.previous.uid == uid && s.running.value.previous.cumulative >= count
          && (s.running.value.read.Found? ==> s.running.value.read.uid == uid))
  }

  lemma KeepsStep(s: Sys, e: Event, t: Sys, uid: string, count: nat)
    requires Keeps(s, uid, count) && Next(s, e, t)
    requires e.Begin? ==> !e.read.NotFound? && (e.read.Found? ==> e.read.uid == uid)
    ensures Keeps(t, uid, count)
  {
    hide Delay;
  }

  /** The cumulative count of one resource never falls between deletions, from any point on. */
  lemma {:induction false} CountNeverFalls(run: seq<Sys>, events: seq<Event>, i: nat, j: nat)
    requires IsRun(run, events) && SameResource(run, events, i, j)
    ensures Keeps(run[j], run[i].stored.uid, run[i].stored.cumulative)
  {
    hide Next;
    if i < j {
      CountNeverFalls(run, events, i, j - 1);
      assert StepAt(run, events, j - 1);
      KeepsStep(run[j - 1], events[j - 1], run[j], run[i].stored.uid, run[i].stored.cumulative);
    } else {
      RunRemembers(run, events, i);
    }
  }

  /** Every failed attempt adds to the count. */
  lemma FailureCounts(s: Sys, report: Report, t: Sys)
    requires Next(s, Finish(report), t) && report.outcome.Failure?
    ensures t.stored.cumulative > s.running.value.previous.cumulative
    ensures t.stored.failures == s.running.value.previous.failures + 1
  {}

  // ---------- the shared table ----------

  type Name = string

  function Lookup(retries: map<Name, Retry>, key: Name): Retry { if key in retries then retries[key] else NOTHING }

  function Occurrences(requests: seq<Name>, key: Name): nat {
    if requests == [] then 0
    else Occurrences(requests[..|requests| - 1], key) + if requests[|requests| - 1] == key then 1 else 0
  }

  /** What any number of invalidations leave. */
  function InvalidatedTimes(r: Retry, n: nat): Retry {
    if n == 0 then r else Invalidated(InvalidatedTimes(r, n - 1))
  }

  class Diagnostics {
    var retries: map<Name, Retry>

    constructor ()
      ensures retries == map[]
    {
      retries := map[];
    }

    /** Clears the delay of every named resource, once for each time it is named, and of no other. */
    method InvalidateRetries(requests: seq<Name>)
      modifies this
      ensures forall key :: Lookup(retries, key) == InvalidatedTimes(Lookup(old(retries), key), Occurrences(requests, key))
    {
      for i := 0 to |requests|
        invariant forall key ::
          Lookup(retries, key) == InvalidatedTimes(Lookup(old(retries), key), Occurrences(requests[..i], key))
      {
        assert requests[..i + 1][..i] == requests[..i];
        var state := Lookup(retries, requests[i]);
        state := state.(next := None, failures := 0, revision := state.revision + 1);
        retries := retries[requests[i] := state];
      }
      assert requests[..|requests|] == requests;
    }

    /** The start of a reconciliation: forgets a deleted resource, puts off an early one, or begins an attempt. */
    method BeginAttempt(key: Name, read: Read, now: int) returns (attempt: Option<Attempt>)
      modifies this
      ensures Next(Sys(Lookup(old(retries), key), None), Begin(now, read), Sys(Lookup(retries, key), attempt))
      ensures forall other | other != key :: Lookup(retries, other) == Lookup(old(retries), other)
    {
      if read.NotFound? {
        retries := retries - {key};
        return None;
      }
      var previous := Lookup(retries, key);
      var input := if read.Found? then read.input else previous.input;
      if read.Found? && previous.input == input && previous.next.Some? && now < previous.next.value {
        return None;
      }
      if read.Found? && previous.uid != read.uid {
        previous := NOTHING.(revision := previous.revision);
      }
      if previous.input != input {
        previous := previous.(failures := 0);
      }
      attempt := Some(Attempt(previous, read, now));
    }

    /** The end of an attempt: stores its state, without a delay if an invalidation came meanwhile. */
    method ScheduleAttempt(key: Name, a: Attempt, report: Report) returns (requeue: bool, after: int)
      requires !a.read.NotFound? && (a.read.ReadFailed? ==> ReadFailure(report))
      modifies this
      ensures Next(Sys(Lookup(old(retries), key), Some(a)), Finish(report), Sys(Lookup(retries, key), None))
      ensures forall other | other != key :: Lookup(retries, other) == Lookup(old(retries), other)
      ensures requeue <==> Lookup(old(retries), key).revision != a.previous.revision
      ensures !requeue ==> after == Delay(a.previous, report)
    {
      var previous := a.previous;
      requeue, after := false, report.requeueAfter;
      var cumulative: nat := Max(previous.cumulative, report.retryCount);
      var next := Retry(if a.read.Found? then a.read.uid else previous.uid, previous.revision,
                        if a.read.Found? then a.read.input else previous.input, 0, cumulative, None, report.outcome);
      if report.outcome.Failure? {
        next := next.(failures := previous.failures + 1);
        if next.cumulative <= previous.cumulative {
          next := next.(cumulative := next.cumulative + 1);
        }
        after := TransientDelay(next.failures, report.jitter);
        if report.deterministic {
          after := DETERMINISTIC_RECHECK;
        }
      } else if report.awaitingApproval {
        after := DETERMINISTIC_RECHECK;
      }
      if after > 0 {
        next := next.(next := Some(a.began + after));
      }
      var current := Lookup(retries, key);
      if current.revision != previous.revision {
        next := next.(revision := current.revision, next := None);
        requeue, after := true, 0;
      }
      retries := retries[key := next];
    }
  }
}
