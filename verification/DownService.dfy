/** The outbox as its commands use it: every change they make is a step of the outbox protocol. */
module DownService {
  import opened Options
  import opened HashChain
  import opened ExecutionTypes
  import opened ExternalExecution
  import opened LifecycleLog
  import opened DownOutbox
  import opened OutboxDelivery

  datatype Outcome = Refused | Failed | OutcomeUncertain | AppliedAuditPending | Reversed

  /** The unfinished rows, each once, in whatever order the store sorts names. */
  ghost predicate Lists(pending: seq<Row>, outbox: seq<Row>) {
    && (forall i | 0 <= i < |pending| :: !pending[i].finalized && pending[i] in outbox)
    && (forall i | PendingAt(outbox, i) :: outbox[i] in pending)
    && (forall i, j | 0 <= i < j < |pending| :: pending[i].key != pending[j].key)
  }

  /** One more row, at any place of the listing. */
  lemma InsertLists(pending: seq<Row>, outbox: seq<Row>, n: nat, k: nat)
    requires n < |outbox| && RowsUnique(outbox) && k <= |pending| && !outbox[n].finalized
    requires Lists(pending, outbox[..n])
    ensures Lists(pending[..k] + [outbox[n]] + pending[k..], outbox[..n + 1])
  {
    var more := pending[..k] + [outbox[n]] + pending[k..];
    assert outbox[..n + 1] == outbox[..n] + [outbox[n]];
    assert pending == pending[..k] + pending[k..];
    assert forall x :: x in more <==> x in pending || x == outbox[n];
    forall i | 0 <= i < |pending|
      ensures pending[i].key != outbox[n].key
    {
      var m :| 0 <= m < n && outbox[..n][m] == pending[i];
      assert outbox[m].key != outbox[n].key;
    }
    var rows := outbox[..n + 1];
    forall i | PendingAt(rows, i)
      ensures rows[i] in more
    {
      if i < n {
        assert PendingAt(outbox[..n], i);
      }
    }
  }

  lemma SkipLists(pending: seq<Row>, outbox: seq<Row>, n: nat)
    requires n < |outbox| && outbox[n].finalized && Lists(pending, outbox[..n])
    ensures Lists(pending, outbox[..n + 1])
  {
    assert outbox[..n + 1] == outbox[..n] + [outbox[n]];
    var rows := outbox[..n + 1];
    forall i | PendingAt(rows, i)
      ensures rows[i] in pending
    {
      assert PendingAt(outbox[..n], i);
    }
  }

  /** Repair skips the rows it does not take. */
  predicate Skips(c: Command, r: Row) { c.Repair? && !Takes(c, r) }

  /** What a successful drain leaves pending: nothing but what the command skips. */
  ghost predicate Drained(c: Command, outbox: seq<Row>) { forall i | PendingAt(outbox, i) :: Skips(c, outbox[i]) }

  /** After the first n listed rows were handled: the others are as listed. */
  ghost predicate Handled(c: Command, outbox: seq<Row>, pending: seq<Row>, n: nat)
    requires n <= |pending|
  {
    && (forall i | n <= i < |pending| :: pending[i] in outbox)
    && (forall i | PendingAt(outbox, i) :: Skips(c, outbox[i]) || exists k :: n <= k < |pending| && pending[k] == outbox[i])
  }

  lemma FinalizedRow(c: Command, outbox: seq<Row>, pending: seq<Row>, n: nat, i: nat)
    requires n < |pending| && Handled(c, outbox, pending, n) && RowsUnique(outbox) && PendingAt(outbox, i)
    requires outbox[i].key == pending[n].key && forall j, k | 0 <= j < k < |pending| :: pending[j].key != pending[k].key
    ensures Handled(c, outbox[i := outbox[i].(finalized := true)], pending, n + 1)
  {
    hide Skips;
    var more := outbox[i := outbox[i].(finalized := true)];
    forall k | n + 1 <= k < |pending|
      ensures pending[k] in more
    {
      var j :| 0 <= j < |outbox| && outbox[j] == pending[k];
      assert more[j] == pending[k];
    }
    forall j | PendingAt(more, j) && !Skips(c, more[j])
      ensures exists k :: n + 1 <= k < |pending| && pending[k] == more[j]
    {
      assert PendingAt(outbox, j) && j != i;
      var k :| n <= k < |pending| && pending[k] == outbox[j];
    }
  }

  lemma SkippedRow(c: Command, outbox: seq<Row>, pending: seq<Row>, n: nat)
    requires n < |pending| && Handled(c, outbox, pending, n) && Skips(c, pending[n])
    ensures Handled(c, outbox, pending, n + 1)
  {
    hide Skips;
  }

  // ---------- when a drain succeeds ----------

  /** The command copies this row without a conflict. */
  ghost predicate RowClear(c: Command, x: Row, log: Lines<Event>) { Takes(c, x) && !Conflicts(log, AsEvent(x.payload)) }

  /** Two rows of one identity hold the same event. */
  ghost predicate Agree(x: Row, y: Row) {
    !x.payload.Malformed? && !y.payload.Malformed? && PayloadId(x.payload) == PayloadId(y.payload) ==>
      SameEvent(AsEvent(x.payload), AsEvent(y.payload))
  }

  /** Repair takes what it can; down and apply need every pending row, none in conflict with the log or another. */
  ghost predicate Drainable(c: Command, outbox: seq<Row>, log: Lines<Event>) {
    c.Repair? || (
      && (forall i | PendingAt(outbox, i) :: RowClear(c, outbox[i], log))
      && (forall i, j | PendingAt(outbox, i) && PendingAt(outbox, j) :: Agree(outbox[i], outbox[j])))
  }

  /** The first n listed rows pass one after the other. */
  ghost predicate Passed(c: Command, pending: seq<Row>, n: nat, log: Lines<Event>)
    requires n <= |pending|
  {
    && (forall k | 0 <= k < n :: RowClear(c, pending[k], log))
    && (forall j, k | 0 <= j < k < n :: Agree(pending[j], pending[k]))
  }

  /** What stands against row k after n rows went to the log. */
  ghost predicate Foreseen(pending: seq<Row>, n: nat, k: nat, log: Lines<Event>, first: Lines<Event>)
    requires n <= k < |pending| && !pending[k].payload.Malformed?
  {
    var e := AsEvent(pending[k].payload);
    Conflicts(log, e) <==> Conflicts(first, e) || exists j :: 0 <= j < n && !Agree(pending[j], pending[k])
  }

  /** A delivered event conflicts with what it differs from under the same identity. */
  lemma AppendConflicts(log: Lines<Event>, e: Event, f: Event)
    requires !Conflicts(log, e) && !e.id.NoId?
    ensures Conflicts(Appended(log, e), f) <==> Conflicts(log, f) || (f.id == e.id && !SameEvent(e, f))
  {
    var more := Appended(log, e);
    if Conflicts(log, f) {
      var i :| 0 <= i < |log| && HasId(log[i], f.id) && !SameEvent(log[i].value.event, f);
      assert HasId(more[i], f.id) && !SameEvent(more[i].value.event, f);
    } else if f.id == e.id && !SameEvent(e, f) {
      if !Logged(log, e.id) {
        assert HasId(more[|log|], f.id) && !SameEvent(more[|log|].value.event, f);
      }
    }
  }

  lemma ForeseenNext(pending: seq<Row>, n: nat, k: nat, log: Lines<Event>, first: Lines<Event>)
    requires n < k < |pending| && WellFormed(pending[k]) && WellFormed(pending[n])
    requires Foreseen(pending, n, k, log, first) && !Conflicts(log, AsEvent(pending[n].payload))
    ensures Foreseen(pending, n + 1, k, Appended(log, AsEvent(pending[n].payload)), first)
  {
    hide Conflicts, Appended;
    AppendConflicts(log, AsEvent(pending[n].payload), AsEvent(pending[k].payload));
  }

  lemma PassesIff(c: Command, pending: seq<Row>, n: nat, log: Lines<Event>, first: Lines<Event>)
    requires n < |pending| && WellFormed(pending[n]) && Passed(c, pending, n, first) && Foreseen(pending, n, n, log, first)
    ensures Takes(c, pending[n]) && !Conflicts(log, AsEvent(pending[n].payload)) <==> Passed(c, pending, n + 1, first)
  {
    hide Conflicts, Agree;
  }

  lemma AgreeSymmetric(x: Row, y: Row)
    ensures Agree(x, y) <==> Agree(y, x)
  {}

  lemma DrainableIffPassed(c: Command, pending: seq<Row>, outbox: seq<Row>, log: Lines<Event>)
    requires !c.Repair? && Lists(pending, outbox)
    ensures Drainable(c, outbox, log) <==> Passed(c, pending, |pending|, log)
  {
    hide RowClear, Agree, Takes;
    if Drainable(c, outbox, log) {
      forall k | 0 <= k < |pending|
        ensures exists i :: PendingAt(outbox, i) && outbox[i] == pending[k]
      {
        var i :| 0 <= i < |outbox| && outbox[i] == pending[k];
        assert PendingAt(outbox, i);
      }
    }
    if Passed(c, pending, |pending|, log) {
      forall i, j | PendingAt(outbox, i) && PendingAt(outbox, j)
        ensures RowClear(c, outbox[i], log) && Agree(outbox[i], outbox[j])
      {
        var k :| 0 <= k < |pending| && pending[k] == outbox[i];
        var m :| 0 <= m < |pending| && pending[m] == outbox[j];
        AgreeSymmetric(pending[k], pending[m]);
        AgreeWithSelf(pending[k]);
      }
    }
  }

  lemma AgreeWithSelf(x: Row)
    ensures Agree(x, x)
  {}

  class Service {
    const audit: FileAudit
    var repairs: seq<AuditRecord>
    var outbox: seq<Row>
    ghost var run: seq<Sys>
    ghost var acts: seq<Action>

    ghost function Now(): Sys
      reads this, audit
    {
      Sys(audit.lines, repairs, outbox)
    }

    /** The durable state is where the recorded run of protocol steps has led. */
    ghost predicate Valid()
      reads this, audit
    {
      IsRun(run, acts) && run[|run| - 1] == Now()
    }

    constructor (audit: FileAudit, repairs: seq<AuditRecord>)
      requires Chain(audit.lines) && UniqueIds(audit.lines)
      ensures this.audit == audit && this.repairs == repairs && Valid() && outbox == [] && acts == []
    {
      this.audit := audit;
      this.repairs := repairs;
      outbox := [];
      run := [Sys(audit.lines, repairs, [])];
      acts := [];
    }

    ghost method Log(a: Action)
      requires IsRun(run, acts) && Next(run[|run| - 1], a, Now())
      modifies this`run, this`acts
      ensures Valid() && acts == old(acts) + [a] && run == old(run) + [Now()]
    {
      ExtendRun(run, acts, a, Now());
      acts, run := acts + [a], run + [Now()];
    }

    lemma Facts()
      requires Valid()
      ensures |run| == |acts| + 1 && Inv(Now())
    {
      RunKeeps(run, acts, |acts|);
    }

    /** Copies one event to the log. */
    method Deliver(e: Event, calm: bool) returns (ok: bool)
      requires Valid()
      modifies this`run, this`acts, audit
      ensures Valid() && old(acts) <= acts && old(audit.lines) <= audit.lines
      ensures ok ==> !old(Conflicts(audit.lines, e)) && audit.lines == Appended(old(audit.lines), e)
      ensures ok && !e.id.NoId? ==> Delivered(audit.lines, e)
      ensures calm ==> (ok <==> !old(Conflicts(audit.lines, e)))
      ensures acts == old(acts) || acts == old(acts) + [Append(e)]
    {
      hide Appended, Chain, UniqueIds, Conflicts, IsRun;
      Facts();
      ok := audit.AppendDurable(e, calm);
      if audit.lines != old(audit.lines) || ok {
        AppendedKeepsLog(old(audit.lines), e);
        AppendDelivers(old(audit.lines), e);
        Log(Append(e));
      }
    }

    /** Adds one record to the repair audit, unless its identity is there; a failed sync may leave it written. */
    method NoteRepair(r: AuditRecord, calm: bool) returns (ok: bool)
      requires Valid()
      modifies this`repairs, this`run, this`acts
      ensures Valid() && old(acts) <= acts && old(repairs) <= repairs
      ensures ok ==> repairs == Noted(old(repairs), r) && Recorded(repairs, r.id)
      ensures calm ==> ok
    {
      for i := 0 to |repairs|
        invariant Valid() && repairs == old(repairs) && acts == old(acts)
        invariant forall k | 0 <= k < i :: repairs[k].id != r.id
      {
        if repairs[i].id == r.id {
          return true;
        }
      }
      var written: bool := *;
      var synced: bool := *;
      ok := synced || calm;
      if written || ok {
        ghost var before := Now();
        repairs := repairs + [r];
        RecordedByStep(before, Note(r), Now(), r.id);
        Log(Note(r));
      }
    }

    /** Marks one pending row done; exactly one row must have been pending. */
    method FinalizeOutbox(key: Key, ghost c: Command, calm: bool) returns (ok: bool)
      requires Valid()
      requires forall i | PendingAt(outbox, i) && outbox[i].key == key ::
                 Takes(c, outbox[i]) && Copied(Now(), c, outbox[i].payload)
      modifies this`outbox, this`run, this`acts
      ensures Valid() && old(acts) <= acts
      ensures ok ==> exists i :: PendingAt(old(outbox), i) && old(outbox)[i].key == key &&
                                 outbox == old(outbox)[i := old(outbox)[i].(finalized := true)]
      ensures !ok ==> outbox == old(outbox)
      ensures calm ==> (ok <==> exists i :: PendingAt(old(outbox), i) && old(outbox)[i].key == key)
      ensures acts == old(acts) || acts == old(acts) + [Finalize(key, c)]
    {
      hide Copied, Takes;
      var reachable: bool := *;
      if !calm && !reachable {
        return false;
      }
      for i := 0 to |outbox|
        invariant outbox == old(outbox) && acts == old(acts) && run == old(run)
        invariant forall k | 0 <= k < i :: !(PendingAt(outbox, k) && outbox[k].key == key)
      {
        if !outbox[i].finalized && outbox[i].key == key {
          ghost var before := Now();
          outbox := outbox[i := outbox[i].(finalized := true)];
          assert FinalizesAt(before, i, key, c, Now());
          Log(Finalize(key, c));
          return true;
        }
      }
      ok := false;
    }

    method PendingOutbox() returns (pending: seq<Row>)
      requires RowsUnique(outbox)
      ensures Lists(pending, outbox)
    {
      hide Lists, RowsUnique;
      pending := [];
      NoneListed();
      assert outbox[..0] == [];
      for n := 0 to |outbox|
        invariant Lists(pending, outbox[..n])
      {
        if !outbox[n].finalized {
          var k: int := *;
          if k < 0 || k > |pending| {
            k := |pending|;
          }
          InsertLists(pending, outbox, n, k);
          pending := pending[..k] + [outbox[n]] + pending[k..];
        } else {
          SkipLists(pending, outbox, n);
        }
      }
      assert outbox[..|outbox|] == outbox;
    }

    /**
     One pending row: to the command's own file first, then marked done. Down and apply
     refuse a row they do not take, repair leaves it.
     */
    method DrainRow(x: Row, c: Command, calm: bool) returns (ok: bool)
      requires Valid() && x in outbox && !x.finalized
      modifies this, audit
      ensures Valid() && old(acts) <= acts && WellFormed(x)
      ensures ok ==> Takes(c, x) || Skips(c, x)
      ensures ok && Takes(c, x) ==> exists i :: PendingAt(old(outbox), i) && old(outbox)[i] == x &&
                                                outbox == old(outbox)[i := x.(finalized := true)]
      ensures !ok || Skips(c, x) ==> outbox == old(outbox)
      ensures ok && !c.Repair? ==> old(RowClear(c, x, audit.lines)) && audit.lines == Appended(old(audit.lines), AsEvent(x.payload))
      ensures calm ==> (ok <==> c.Repair? || old(RowClear(c, x, audit.lines)))
    {
      hide Valid, Conflicts, Delivered, Appended, Recorded;
      Facts();
      RowIsOurs(Now(), x);
      if x.payload.Malformed? || (!c.Apply? && x.key != EventKey(PayloadId(x.payload))) {
        return c.Repair?;
      }
      if c.Repair? {
        ok := NoteRepair(AsRecord(x.payload), calm);
      } else {
        ok := Deliver(AsEvent(x.payload), calm);
      }
      if !ok {
        return;
      }
      ghost var k :| 0 <= k < |outbox| && outbox[k] == x;
      assert PendingAt(outbox, k);
      ok := FinalizeOutbox(x.key, c, calm);
    }

    /**
     Handles every pending row, in any order. Without faults repair always gets through,
     and down and apply do exactly when they take every pending row and none conflicts
     with the log or another.
     */
    method DrainOutbox(c: Command, calm: bool) returns (ok: bool)
      requires Valid()
      modifies this, audit
      ensures Valid() && old(acts) <= acts && RowsKept(old(outbox), outbox) && |outbox| == |old(outbox)|
      ensures ok ==> Drained(c, outbox)
      ensures ok && !c.Repair? ==> AllFinalized(outbox)
      ensures calm ==> (ok <==> Drainable(c, old(outbox), old(audit.lines)))
    {
      hide Valid, Appended, Lists, Drainable, Handled, WellFormed, Takes, RowClear, Progress, Skips;
      ghost var log := audit.lines;
      Facts();
      var pending := PendingOutbox();
      ListFacts(c, pending, outbox);
      StartProgress(c, pending, log);
      DrainableIffPasses(c, pending, outbox, log);
      for n := 0 to |pending|
        invariant Valid() && old(acts) <= acts && RowsKept(old(outbox), outbox) && |outbox| == |old(outbox)|
        invariant Handled(c, outbox, pending, n) && Progress(c, pending, n, audit.lines, log)
      {
        var x := pending[n];
        Facts();
        NextToHandle(c, outbox, pending, n);
        ghost var before, rows := audit.lines, outbox;
        ok := DrainRow(x, c, calm);
        if !ok {
          if calm {
            NoProgress(c, pending, n, before, log);
          }
          return;
        }
        MoreProgress(c, pending, n, before, audit.lines, log);
        StepHandled(c, old(outbox), rows, outbox, pending, n);
      }
      NothingLeft(c, outbox, pending);
      Finished(c, pending, audit.lines, log);
      ok := true;
    }

    /** Copies events to the log until one fails. */
    method DeliverAll(events: seq<Event>, calm: bool) returns (ok: bool)
      requires Valid()
      modifies this`run, this`acts, audit
      ensures Valid() && old(acts) <= acts && old(audit.lines) <= audit.lines
      ensures ok ==> forall i | 0 <= i < |events| && !events[i].id.NoId? :: Delivered(audit.lines, events[i])
    {
      hide Valid, Conflicts, Delivered, Appended;
      for n := 0 to |events|
        invariant Valid() && old(acts) <= acts && old(audit.lines) <= audit.lines
        invariant forall i | 0 <= i < n && !events[i].id.NoId? :: Delivered(audit.lines, events[i])
      {
        ghost var before := audit.lines;
        ok := Deliver(events[n], calm);
        if !ok {
          return;
        }
        forall i | 0 <= i < n && !events[i].id.NoId?
          ensures Delivered(audit.lines, events[i])
        {
          DeliveredStays(before, audit.lines, events[i]);
        }
      }
      ok := true;
    }

    /** Stages rows; the insert refuses a row without a name. */
    method EnqueueOutbox(rows: seq<Row>) returns (ok: bool, staged: seq<Row>)
      ensures ok <==> forall i | 0 <= i < |rows| :: rows[i].key != EventKey(NoId)
      ensures ok ==> staged == EnqueueAll(outbox, rows)
    {
      staged := outbox;
      for n := 0 to |rows|
        invariant staged == EnqueueAll(outbox, rows[..n])
        invariant forall i | 0 <= i < n :: rows[i].key != EventKey(NoId)
      {
        if rows[n].key == EventKey(NoId) {
          return false, outbox;
        }
        assert rows[..n + 1][..n] == rows[..n];
        staged := Enqueue(staged, rows[n]);
      }
      assert rows[..|rows|] == rows;
      ok := true;
    }

    /** The transaction ends: it may have committed although the caller is told it failed. */
    method CommitBatch(b: Batch, staged: seq<Row>, calm: bool) returns (reported: bool)
      requires Valid() && Built(b) && staged == EnqueueAll(outbox, RowsOf(b))
      modifies this`outbox, this`run, this`acts
      ensures Valid() && old(acts) <= acts
      ensures reported ==> outbox == staged && acts == old(acts) + [Commit(b)]
      ensures !reported ==> (outbox == staged && acts == old(acts) + [Commit(b)]) || (outbox == old(outbox) && acts == old(acts))
      ensures calm ==> reported
    {
      hide EnqueueAll, RowsOf, Built;
      var durable: bool := *;
      var answered: bool := *;
      reported := answered || calm;
      if durable || reported {
        outbox := staged;
        Log(Commit(b));
      }
    }

    /** After the commit: the events go to the log, then each row is marked done. */
    method SettleDown(events: seq<Event>, uncertain: Event, calm: bool) returns (ok: bool)
      requires Valid() && OnlyOurs(outbox, events, 0) && forall i | 0 <= i < |events| :: !events[i].id.NoId?
      modifies this, audit
      ensures Valid() && old(acts) <= acts && RowsKept(old(outbox), outbox)
      ensures ok ==> AllFinalized(outbox) && forall i | 0 <= i < |events| :: Delivered(audit.lines, events[i])
    {
      hide Valid, Conflicts, Delivered, Appended, OnlyOurs, Copied, Takes;
      ok := DeliverAll(events, calm);
      if !ok {
        var noted := Deliver(uncertain, calm);
        return;
      }
      for n := 0 to |events|
        invariant Valid() && old(acts) <= acts && RowsKept(old(outbox), outbox)
        invariant OnlyOurs(outbox, events, n)
        invariant forall i | 0 <= i < |events| :: Delivered(audit.lines, events[i])
      {
        ghost var before := audit.lines;
        ok := Deliver(events[n], calm);
        forall i | 0 <= i < |events|
          ensures Delivered(audit.lines, events[i])
        {
          DeliveredStays(before, audit.lines, events[i]);
        }
        if !ok {
          return;
        }
        OursDelivered(Now(), events, n);
        ghost var rows := outbox;
        ok := FinalizeOutbox(EventKey(events[n].id), Down, calm);
        if !ok {
          return;
        }
        ghost var i :| PendingAt(rows, i) && rows[i].key == EventKey(events[n].id) && outbox == rows[i := rows[i].(finalized := true)];
        MarkKeepsRows(old(outbox), rows, i);
        Facts();
        OneFewer(rows, outbox, events, n, i);
      }
      NoneOfOursLeft(outbox, events);
      ok := true;
    }

    /**
     A controlled down migration. It adds outbox rows only by committing the execution's
     events, and when it reports success those events are in the log and nothing is pending.
     */
    method ApplyDown(x: Attempt, executed: seq<Event>, uncertain: Event, calm: bool)
      returns (outcome: Outcome, events: seq<Event>)
      requires Valid()
      modifies this, audit
      ensures Valid() && old(acts) <= acts && RowsKept(old(outbox), outbox)
      ensures outcome.Refused? || outcome.Failed? ==> |outbox| == |old(outbox)|
      ensures outcome.Reversed? ==> AllFinalized(outbox) && Commit(DownBatch(x, events)) in acts[|old(acts)|..]
      ensures outcome.Reversed? ==>
        Timed(events, EventsOf(x)) && forall i | 0 <= i < |events| :: Delivered(audit.lines, events[i])
    {
      hide Valid, Conflicts, Delivered, Appended, OnlyOurs, Inv, EnqueueAll, Drained, Drainable, Timed, EventsOf;
      events := [];
      var ok := DrainOutbox(Down, calm);
      if !ok {
        return AppliedAuditPending, [];
      }
      var verified: bool := *;
      if !verified {
        return Refused, [];
      }
      ok := DeliverAll(executed, calm);
      var applied: bool := *;
      if !ok || !applied {
        ok := Deliver(uncertain, calm);
        return Failed, [];
      }
      events := ExternalEvents(x);
      var b := DownBatch(x, events);
      var staged;
      ok, staged := EnqueueOutbox(RowsOf(b));
      if !ok {
        ok := Deliver(uncertain, calm);
        return Failed, events;
      }
      AllIdentified(x, events);
      ghost var rows, before := outbox, acts;
      Facts();
      EnqueuedOurs(Now(), x, events);
      ok := CommitBatch(b, staged, calm);
      if !ok {
        ok := Deliver(uncertain, calm);
        return OutcomeUncertain, events;
      }
      RowsKeptTrans(old(outbox), rows, outbox);
      ghost var after := outbox;
      ok := SettleDown(events, uncertain, calm);
      RowsKeptTrans(old(outbox), after, outbox);
      if !ok {
        return AppliedAuditPending, events;
      }
      assert acts[|before|] == Commit(b);
      outcome := Reversed;
    }
  }

  // ---------- draining ----------

  /** Down and apply so far met no obstacle, and those ahead are known. */
  ghost predicate Progress(c: Command, pending: seq<Row>, n: nat, log: Lines<Event>, first: Lines<Event>)
    requires n <= |pending|
  {
    c.Repair? || (
      && (forall k | 0 <= k < |pending| :: WellFormed(pending[k]))
      && (forall k | n <= k < |pending| :: Foreseen(pending, n, k, log, first))
      && Passed(c, pending, n, first))
  }

  lemma StartProgress(c: Command, pending: seq<Row>, log: Lines<Event>)
    requires forall k | 0 <= k < |pending| :: WellFormed(pending[k])
    ensures Progress(c, pending, 0, log, log)
  {
    hide Conflicts, Agree;
  }

  lemma MoreProgress(
    c: Command, pending: seq<Row>, n: nat, before: Lines<Event>, after: Lines<Event>, first: Lines<Event>)
    requires n < |pending| && Progress(c, pending, n, before, first) && WellFormed(pending[n])
    requires c.Repair? || (RowClear(c, pending[n], before) && after == Appended(before, AsEvent(pending[n].payload)))
    ensures Progress(c, pending, n + 1, after, first)
  {
    hide Conflicts, Appended, Foreseen, Takes;
    if !c.Repair? {
      PassesIff(c, pending, n, before, first);
      var m := n + 1;
      forall k | m <= k < |pending|
        ensures Foreseen(pending, m, k, after, first)
      {
        ForeseenNext(pending, n, k, before, first);
      }
    }
  }

  lemma NoProgress(c: Command, pending: seq<Row>, n: nat, before: Lines<Event>, first: Lines<Event>)
    requires n < |pending| && Progress(c, pending, n, before, first) && !c.Repair? && !RowClear(c, pending[n], before)
    ensures !Passed(c, pending, |pending|, first)
  {
    hide Conflicts, Agree, Takes;
    assert Foreseen(pending, n, n, before, first);
    PassesIff(c, pending, n, before, first);
  }

  lemma Finished(c: Command, pending: seq<Row>, log: Lines<Event>, first: Lines<Event>)
    requires Progress(c, pending, |pending|, log, first)
    ensures c.Repair? || Passed(c, pending, |pending|, first)
  {}

  lemma DrainableIffPasses(c: Command, pending: seq<Row>, outbox: seq<Row>, log: Lines<Event>)
    requires Lists(pending, outbox)
    ensures Drainable(c, outbox, log) <==> c.Repair? || Passed(c, pending, |pending|, log)
  {
    if !c.Repair? {
      DrainableIffPassed(c, pending, outbox, log);
    }
  }

  lemma StepHandled(c: Command, first: seq<Row>, rows: seq<Row>, outbox: seq<Row>, pending: seq<Row>, n: nat)
    requires n < |pending| && Handled(c, rows, pending, n) && RowsUnique(rows) && RowsKept(first, rows)
    requires forall j, k | 0 <= j < k < |pending| :: pending[j].key != pending[k].key
    requires Takes(c, pending[n]) || Skips(c, pending[n])
    requires Takes(c, pending[n]) ==>
      exists i :: PendingAt(rows, i) && rows[i] == pending[n] && outbox == rows[i := pending[n].(finalized := true)]
    requires Skips(c, pending[n]) ==> outbox == rows
    ensures Handled(c, outbox, pending, n + 1) && RowsKept(first, outbox) && |outbox| == |rows|
  {
    hide Handled, RowsUnique, Takes;
    if Takes(c, pending[n]) {
      var i :| PendingAt(rows, i) && rows[i] == pending[n] && outbox == rows[i := pending[n].(finalized := true)];
      FinalizedRow(c, rows, pending, n, i);
      MarkKeepsRows(first, rows, i);
    } else {
      SkippedRow(c, rows, pending, n);
    }
  }

  lemma MarkKeepsRows(first: seq<Row>, rows: seq<Row>, i: nat)
    requires RowsKept(first, rows) && i < |rows|
    ensures RowsKept(first, rows[i := rows[i].(finalized := true)])
  {}

  lemma NextToHandle(c: Command, outbox: seq<Row>, pending: seq<Row>, n: nat)
    requires n < |pending| && Handled(c, outbox, pending, n)
    ensures pending[n] in outbox
  {}

  lemma NothingLeft(c: Command, outbox: seq<Row>, pending: seq<Row>)
    requires Handled(c, outbox, pending, |pending|)
    ensures Drained(c, outbox) && (!c.Repair? ==> AllFinalized(outbox))
  {
    forall i | 0 <= i < |outbox| && !c.Repair?
      ensures outbox[i].finalized
    {
      if PendingAt(outbox, i) {
      }
    }
  }

  lemma NoneListed()
    ensures Lists([], [])
  {}

  lemma ListFacts(c: Command, pending: seq<Row>, outbox: seq<Row>)
    requires Lists(pending, outbox) && AllWellFormed(outbox)
    ensures Handled(c, outbox, pending, 0)
    ensures forall k | 0 <= k < |pending| :: WellFormed(pending[k]) && !pending[k].finalized
    ensures forall j, k | 0 <= j < k < |pending| :: pending[j].key != pending[k].key
  {
    hide WellFormed, Skips;
    forall i | PendingAt(outbox, i)
      ensures exists k :: 0 <= k < |pending| && pending[k] == outbox[i]
    {
      assert outbox[i] in pending;
    }
  }

  /** Rows of one store are told apart by their name. */
  lemma RowIsOurs(s: Sys, x: Row)
    requires Inv(s) && x in s.outbox
    ensures WellFormed(x)
    ensures forall i | 0 <= i < |s.outbox| && s.outbox[i].key == x.key :: s.outbox[i] == x
  {
    hide Chain, UniqueIds, CopiedSomewhere, WellFormed;
  }

  // ---------- the rows of one down migration ----------

  lemma RowsKeptTrans(a: seq<Row>, b: seq<Row>, c: seq<Row>)
    requires RowsKept(a, b) && RowsKept(b, c)
    ensures RowsKept(a, c)
  {}

  lemma AllIdentified(x: Attempt, events: seq<Event>)
    requires Timed(events, EventsOf(x))
    ensures forall i | 0 <= i < |events| :: !events[i].id.NoId?
  {
    hide Timed, EventsOf;
    forall i | 0 <= i < |events|
      ensures !events[i].id.NoId?
    {
      EventsAreIdentified(x, events, i);
    }
  }

  /** The pending rows hold events of this migration, none of the first n identities. */
  ghost predicate OnlyOurs(outbox: seq<Row>, events: seq<Event>, n: nat) {
    forall i | PendingAt(outbox, i) ::
      && outbox[i].payload.StoredEvent? && outbox[i].payload.event in events
      && outbox[i].key == EventKey(outbox[i].payload.event.id) && FromOn(events, n, outbox[i].payload.event.id)
  }

  ghost predicate FromOn(events: seq<Event>, n: nat, id: EventId) {
    exists k :: n <= k < |events| && events[k].id == id
  }

  lemma EnqueuedOurs(s: Sys, x: Attempt, events: seq<Event>)
    requires Inv(s) && AllFinalized(s.outbox) && Timed(events, EventsOf(x))
    ensures var more := EnqueueAll(s.outbox, RowsOf(DownBatch(x, events)));
      RowsKept(s.outbox, more) && OnlyOurs(more, events, 0)
  {
    hide Chain, UniqueIds, CopiedSomewhere, EnqueueAll, Timed, EventsOf, WellFormed;
    var b := DownBatch(x, events);
    RowsWellFormed(b);
    EnqueueAllKeeps(s.outbox, RowsOf(b));
    var more := EnqueueAll(s.outbox, RowsOf(b));
    forall i | PendingAt(more, i)
      ensures more[i].payload.StoredEvent? && more[i].payload.event in events
      ensures more[i].key == EventKey(more[i].payload.event.id) && FromOn(events, 0, more[i].payload.event.id)
    {
      assert i >= |s.outbox|;
      var k :| 0 <= k < |RowsOf(b)| && RowsOf(b)[k] == more[i];
      assert events[k].id == more[i].payload.event.id;
    }
  }

  lemma OursDelivered(s: Sys, events: seq<Event>, n: nat)
    requires OnlyOurs(s.outbox, events, n) && forall i | 0 <= i < |events| :: Delivered(s.log, events[i])
    ensures forall i | PendingAt(s.outbox, i) :: Takes(Down, s.outbox[i]) && Copied(s, Down, s.outbox[i].payload)
  {
    hide Delivered, FromOn;
  }

  lemma OneFewer(rows: seq<Row>, outbox: seq<Row>, events: seq<Event>, n: nat, i: nat)
    requires n < |events| && OnlyOurs(rows, events, n) && RowsUnique(outbox)
    requires PendingAt(rows, i) && rows[i].key == EventKey(events[n].id) && outbox == rows[i := rows[i].(finalized := true)]
    ensures OnlyOurs(outbox, events, n + 1)
  {
    forall j | PendingAt(outbox, j)
      ensures FromOn(events, n + 1, outbox[j].payload.event.id)
    {
      assert PendingAt(rows, j) && outbox[j].key != outbox[i].key;
      var k :| n <= k < |events| && events[k].id == outbox[j].payload.event.id;
      assert k != n;
    }
  }

  lemma NoneOfOursLeft(outbox: seq<Row>, events: seq<Event>)
    requires OnlyOurs(outbox, events, |events|)
    ensures AllFinalized(outbox)
  {
    forall i | 0 <= i < |outbox|
      ensures outbox[i].finalized
    {
      if PendingAt(outbox, i) {
      }
    }
  }
}
