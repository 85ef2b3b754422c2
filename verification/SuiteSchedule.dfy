/**
 The suite's work queue: workers claim case indexes from one shared counter, run
 what they claim, and stop when the counter is exhausted or the run is cancelled.
 Every interleaving of their steps, with a cancellation anywhere, is a run here.
 */
module SuiteSchedule {
  import opened Options
  import opened SuiteTypes

  /** Where a worker is: about to test for cancellation, about to claim, holding an index, running it, finished. */
  datatype Pc = Top | Claiming | Holding(index: nat) | Running(index: nat) | Done

  /** `runs` and `written` list the indexes whose execution started and whose slot was written, in order. */
  datatype Queue = Queue(
    next: nat, cancelled: bool, workers: seq<Pc>, results: seq<CaseResult>, runs: seq<nat>, written: seq<nat>)

  /** A suite: its cases, and what executing each of them gives when nothing is cancelled. */
  datatype Suite = Suite(cases: seq<TestCase>, outcome: nat -> CaseResult)

  datatype Event = Act(worker: nat, result: CaseResult) | Cancel

  predicate Runnable(suite: Suite, i: nat) { i < |suite.cases| && suite.cases[i].skip == "" }

  /** One step of one worker. `result` is what its case execution returned, arbitrary once cancelled. */
  ghost predicate Works(suite: Suite, q: Queue, w: nat, result: CaseResult, r: Queue)
    requires w < |q.workers|
  {
    match q.workers[w]
    case Top => r == q.(workers := q.workers[w := if q.cancelled then Done else Claiming])
    case Claiming =>
      r == q.(next := q.next + 1,
              workers := q.workers[w := if q.next >= |suite.cases| then Done
                                        else if !Runnable(suite, q.next) then Top
                                        else Holding(q.next)])
    case Holding(i) =>
      if q.cancelled then r == q.(workers := q.workers[w := Done])
      else r == q.(workers := q.workers[w := Running(i)], runs := q.runs + [i])
    case Running(i) =>
      && i < |q.results|
      && (!q.cancelled ==> result == suite.outcome(i))
      && r == q.(workers := q.workers[w := Top], results := q.results[i := result], written := q.written + [i])
    case Done => false
  }

  ghost predicate Next(suite: Suite, q: Queue, e: Event, r: Queue) {
    match e
    case Act(w, result) => w < |q.workers| && Works(suite, q, w, result, r)
    case Cancel => r == q.(cancelled := true)
  }

  function Start(suite: Suite, workers: nat): Queue {
    Queue(0, false, seq(workers, _ => Top), InitialResults(suite.cases), [], [])
  }

  function Min(a: nat, b: nat): nat { if a < b then a else b }

  // ---------- what every interleaving keeps ----------

  predicate Has(pc: Pc, i: nat) { (pc.Holding? || pc.Running?) && pc.index == i }

  ghost predicate Held(q: Queue, i: nat) {
    exists w :: 0 <= w < |q.workers| && Has(q.workers[w], i)
  }

  /** Claimed indexes belong to one worker each, start at most once and are written at most once after starting. */
  ghost predicate Exclusive(suite: Suite, q: Queue) {
    && |q.results| == |suite.cases|
    && NoRepeats(q.runs) && NoRepeats(q.written)
    && (forall i | i in q.runs :: i < q.next && Runnable(suite, i))
    && (forall i | i in q.written :: i in q.runs)
    && (forall w | 0 <= w < |q.workers| :: OwnsIt(suite, q, q.workers[w]))
    && (forall v, w | 0 <= v < w < |q.workers| && (q.workers[v].Holding? || q.workers[v].Running?) ::
          !Has(q.workers[w], q.workers[v].index))
    && (forall i | 0 <= i < |suite.cases| && i !in q.written :: q.results[i] == InitialResult(suite.cases[i]))
  }

  predicate OwnsIt(suite: Suite, q: Queue, pc: Pc) {
    match pc
    case Holding(i) => i < q.next && Runnable(suite, i) && i !in q.runs
    case Running(i) => i < q.next && Runnable(suite, i) && i in q.runs && i !in q.written
    case _ => true
  }

  /** Until a cancellation nothing that was claimed gets lost, and what was written is what execution gives. */
  ghost predicate Lossless(suite: Suite, q: Queue) {
    !q.cancelled ==>
      && (forall i | i in q.written && i < |q.results| :: q.results[i] == suite.outcome(i))
      && (forall i | 0 <= i < q.next && Runnable(suite, i) :: i in q.written || Held(q, i))
      && (forall w | 0 <= w < |q.workers| && q.workers[w].Done? :: q.next >= |suite.cases|)
  }

  lemma ClaimStaysExclusive(suite: Suite, q: Queue, w: nat, result: CaseResult, r: Queue)
    requires w < |q.workers| && Exclusive(suite, q) && Works(suite, q, w, result, r)
    requires q.workers[w].Top? || q.workers[w].Claiming?
    ensures Exclusive(suite, r)
  {
  }

  lemma RunStaysExclusive(suite: Suite, q: Queue, w: nat, result: CaseResult, r: Queue)
    requires w < |q.workers| && Exclusive(suite, q) && Works(suite, q, w, result, r)
    requires q.workers[w].Holding?
    ensures Exclusive(suite, r)
  {
  }

  lemma WriteStaysExclusive(suite: Suite, q: Queue, w: nat, result: CaseResult, r: Queue)
    requires w < |q.workers| && Exclusive(suite, q) && Works(suite, q, w, result, r)
    requires q.workers[w].Running?
    ensures Exclusive(suite, r)
  {
  }

  lemma ExclusiveStep(suite: Suite, q: Queue, e: Event, r: Queue)
    requires Exclusive(suite, q) && Next(suite, q, e, r)
    ensures Exclusive(suite, r)
  {
    if e.Act? {
      match q.workers[e.worker] {
        case Holding(_) => RunStaysExclusive(suite, q, e.worker, e.result, r);
        case Running(_) => WriteStaysExclusive(suite, q, e.worker, e.result, r);
        case Top => ClaimStaysExclusive(suite, q, e.worker, e.result, r);
        case Claiming => ClaimStaysExclusive(suite, q, e.worker, e.result, r);
      }
    }
  }

  lemma HeldAfter(suite: Suite, q: Queue, w: nat, result: CaseResult, r: Queue, i: nat)
    requires w < |q.workers| && Works(suite, q, w, result, r) && !q.cancelled && Held(q, i)
    ensures Held(r, i) || i in r.written
  {
    var v :| 0 <= v < |q.workers| && Has(q.workers[v], i);
    if v != w {
      assert Has(r.workers[v], i);
    } else if !q.workers[w].Running? {
      assert Has(r.workers[w], i);
    }
  }

  lemma LosslessStep(suite: Suite, q: Queue, e: Event, r: Queue)
    requires Exclusive(suite, q) && Lossless(suite, q) && Next(suite, q, e, r)
    ensures Lossless(suite, r)
  {
    if !r.cancelled {
      forall i | 0 <= i < r.next && Runnable(suite, i)
        ensures i in r.written || Held(r, i)
      {
        if i < q.next {
          if i !in q.written {
            HeldAfter(suite, q, e.worker, e.result, r, i);
          }
        } else {
          assert Has(r.workers[e.worker], i);
        }
      }
    }
  }

  /** Any number of workers, any interleaving, any cancellation. */
  ghost predicate IsRun(suite: Suite, workers: nat, run: seq<Queue>, events: seq<Event>) {
    && |run| == |events| + 1
    && run[0] == Start(suite, workers)
    && forall i | 0 <= i < |events| :: StepAt(suite, run, events, i)
  }

  ghost predicate StepAt(suite: Suite, run: seq<Queue>, events: seq<Event>, i: nat)
    requires i < |events| && |run| == |events| + 1
  {
    Next(suite, run[i], events[i], run[i + 1])
  }

  lemma {:induction false} RunKeeps(suite: Suite, workers: nat, run: seq<Queue>, events: seq<Event>, i: nat)
    requires IsRun(suite, workers, run, events) && i < |run|
    ensures Exclusive(suite, run[i]) && Lossless(suite, run[i]) && |run[i].workers| == workers
  {
    if i > 0 {
      RunKeeps(suite, workers, run, events, i - 1);
      assert StepAt(suite, run, events, i - 1);
      ExclusiveStep(suite, run[i - 1], events[i - 1], run[i]);
      LosslessStep(suite, run[i - 1], events[i - 1], run[i]);
    }
  }

  function InFlight(workers: seq<Pc>): set<nat> {
    set w | 0 <= w < |workers| && workers[w].Running? :: workers[w].index
  }

  lemma {:induction false} InFlightBound(workers: seq<Pc>)
    ensures |InFlight(workers)| <= |workers|
  {
    if workers != [] {
      var last := |workers| - 1;
      InFlightBound(workers[..last]);
      var rest := InFlight(workers[..last]);
      if workers[last].Running? {
        assert InFlight(workers) == rest + {workers[last].index};
      } else {
        assert InFlight(workers) == rest;
      }
    }
  }

  /** No case starts twice, no slot is written twice, none is written before its case started, and at most the allowed number run at once. */
  lemma EveryInterleavingIsExclusive(suite: Suite, parallel: nat, run: seq<Queue>, events: seq<Event>, i: nat)
    requires IsRun(suite, Min(parallel, |suite.cases|), run, events) && i < |run|
    ensures NoRepeats(run[i].runs) && NoRepeats(run[i].written)
    ensures forall k | k in run[i].written :: k in run[i].runs
    ensures forall k | k in run[i].runs :: Runnable(suite, k)
    ensures |InFlight(run[i].workers)| <= parallel
    ensures |run[i].results| == |suite.cases|
    ensures forall k | 0 <= k < |suite.cases| && k !in run[i].written ::
      run[i].results[k] == InitialResult(suite.cases[k])
  {
    RunKeeps(suite, Min(parallel, |suite.cases|), run, events, i);
    InFlightBound(run[i].workers);
  }

  /** What running the cases one after the other produces. */
  function Sequential(suite: Suite): (out: seq<CaseResult>)
    ensures |out| == |suite.cases|
    ensures forall i | 0 <= i < |out| ::
      out[i] == if Runnable(suite, i) then suite.outcome(i) else InitialResult(suite.cases[i])
  {
    seq(|suite.cases|, i requires 0 <= i < |suite.cases| =>
      if Runnable(suite, i) then suite.outcome(i) else InitialResult(suite.cases[i]))
  }

  predicate AllDone(q: Queue) { forall w | 0 <= w < |q.workers| :: q.workers[w].Done? }

  lemma FinishedIsSequential(suite: Suite, q: Queue)
    requires Exclusive(suite, q) && Lossless(suite, q) && AllDone(q) && !q.cancelled
    requires suite.cases == [] || q.workers != []
    ensures q.results == Sequential(suite)
  {
    if suite.cases != [] {
      assert q.workers[0].Done?;
    }
    forall i | 0 <= i < |suite.cases|
      ensures q.results[i] == Sequential(suite)[i]
    {
      if Runnable(suite, i) {
        assert i in q.written || Held(q, i);
      }
    }
  }

  /** Uncancelled, every interleaving of any number of workers ends with the results of the sequential run. */
  lemma UncancelledRunsAgree(suite: Suite, parallel: nat, run: seq<Queue>, events: seq<Event>)
    requires 1 <= parallel && IsRun(suite, Min(parallel, |suite.cases|), run, events)
    requires AllDone(run[|run| - 1]) && !run[|run| - 1].cancelled
    ensures run[|run| - 1].results == Sequential(suite)
  {
    RunKeeps(suite, Min(parallel, |suite.cases|), run, events, |run| - 1);
    FinishedIsSequential(suite, run[|run| - 1]);
  }

  // ---------- every schedule ends ----------

  function Weight(pc: Pc): nat {
    match pc
    case Done => 0
    case Claiming => 1
    case Top => 2
    case Running(_) => 3
    case Holding(_) => 4
  }

  function Weights(workers: seq<Pc>): nat {
    if workers == [] then 0 else Weights(workers[..|workers| - 1]) + Weight(workers[|workers| - 1])
  }

  function Remaining(suite: Suite, q: Queue): nat {
    Weights(q.workers) + 4 * (if q.next < |suite.cases| then |suite.cases| - q.next else 0)
  }

  lemma {:induction false} WeightsUpdate(workers: seq<Pc>, w: nat, pc: Pc)
    requires w < |workers|
    ensures Weights(workers[w := pc]) + Weight(workers[w]) == Weights(workers) + Weight(pc)
  {
    var last := |workers| - 1;
    if w == last {
      assert workers[w := pc][..last] == workers[..last];
    } else {
      assert workers[w := pc][..last] == workers[..last][w := pc];
      WeightsUpdate(workers[..last], w, pc);
    }
  }

  /** Each step of a worker uses up work, so only finitely many can follow, cancelled or not. */
  lemma WorkersProgress(suite: Suite, q: Queue, w: nat, result: CaseResult, r: Queue)
    requires w < |q.workers| && Works(suite, q, w, result, r)
    ensures Remaining(suite, r) < Remaining(suite, q)
  {
    WeightsUpdate(q.workers, w, r.workers[w]);
    assert r.workers == q.workers[w := r.workers[w]];
  }

  lemma {:induction false} RunsAreBounded(suite: Suite, workers: nat, run: seq<Queue>, events: seq<Event>, i: nat)
    requires IsRun(suite, workers, run, events) && i <= |events|
    ensures Remaining(suite, run[i]) + WorkSteps(events[..i]) <= Remaining(suite, Start(suite, workers))
  {
    if i > 0 {
      RunsAreBounded(suite, workers, run, events, i - 1);
      assert StepAt(suite, run, events, i - 1);
      assert events[..i][..i - 1] == events[..i - 1];
      if events[i - 1].Act? {
        WorkersProgress(suite, run[i - 1], events[i - 1].worker, events[i - 1].result, run[i]);
      }
    }
  }

  function WorkSteps(events: seq<Event>): nat {
    if events == [] then 0
    else WorkSteps(events[..|events| - 1]) + if events[|events| - 1].Act? then 1 else 0
  }

  /** One move of an unfinished worker. */
  method Advance(suite: Suite, q: Queue, w: nat) returns (r: Queue, result: CaseResult)
    requires w < |q.workers| && !q.workers[w].Done? && OwnsIt(suite, q, q.workers[w])
    requires |q.results| == |suite.cases|
    ensures Works(suite, q, w, result, r)
  {
    result := *;
    match q.workers[w] {
      case Top => r := q.(workers := q.workers[w := if q.cancelled then Done else Claiming]);
      case Claiming =>
        var i := q.next;
        r := q.(next := i + 1);
        if i >= |suite.cases| {
          r := r.(workers := r.workers[w := Done]);
        } else if suite.cases[i].skip != "" {
          r := r.(workers := r.workers[w := Top]);
        } else {
          r := r.(workers := r.workers[w := Holding(i)]);
        }
      case Holding(i) =>
        if q.cancelled {
          r := q.(workers := q.workers[w := Done]);
        } else {
          r := q.(workers := q.workers[w := Running(i)], runs := q.runs + [i]);
        }
      case Running(i) =>
        if !q.cancelled {
          result := suite.outcome(i);
        }
        r := q.(workers := q.workers[w := Top], results := q.results[i := result], written := q.written + [i]);
    }
  }

  /**
   The scheduler itself: any unfinished worker may move next, and unless `steady` a
   cancellation may arrive before any move.
   */
  method Schedule(suite: Suite, parallel: nat, steady: bool) returns (results: seq<CaseResult>, cancelled: bool)
    requires 1 <= parallel
    ensures |results| == |suite.cases|
    ensures steady ==> !cancelled
    ensures !cancelled ==> results == Sequential(suite)
    ensures forall i | 0 <= i < |results| && !Runnable(suite, i) :: results[i] == InitialResult(suite.cases[i])
  {
    var q := Start(suite, Min(parallel, |suite.cases|));
    while !AllDone(q)
      invariant Exclusive(suite, q) && Lossless(suite, q)
      invariant |q.workers| == Min(parallel, |suite.cases|)
      invariant steady ==> !q.cancelled
      decreases Remaining(suite, q)
    {
      var interrupt: bool := *;
      if interrupt && !steady {
        LosslessStep(suite, q, Cancel, q.(cancelled := true));
        q := q.(cancelled := true);
      }
      var w :| 0 <= w < |q.workers| && !q.workers[w].Done?;
      var r, result := Advance(suite, q, w);
      ExclusiveStep(suite, q, Act(w, result), r);
      LosslessStep(suite, q, Act(w, result), r);
      WorkersProgress(suite, q, w, result, r);
      q := r;
    }
    results, cancelled := q.results, q.cancelled;
    if !q.cancelled {
      FinishedIsSequential(suite, q);
    }
  }
}
