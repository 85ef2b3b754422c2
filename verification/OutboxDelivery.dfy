/** Where committed events and records are once nothing is pending. */
module OutboxDelivery {
  import opened Options
  import opened HashChain
  import opened ExecutionTypes
  import opened ExternalExecution
  import opened LifecycleLog
  import opened DownOutbox

  predicate AllFinalized(outbox: seq<Row>) { forall i | 0 <= i < |outbox| :: outbox[i].finalized }

  /** Exactly one record carries this identity, and it is this event. */
  ghost predicate LoggedOnce(log: Lines<Event>, e: Event) {
    exists k :: 0 <= k < |log| && HasId(log[k], e.id) && SameEvent(log[k].value.event, e) &&
                forall j | 0 <= j < |log| && HasId(log[j], e.id) :: j == k
  }

  lemma DeliveredOnce(log: Lines<Event>, e: Event)
    requires UniqueIds(log) && !e.id.NoId?
    ensures Delivered(log, e) <==> LoggedOnce(log, e)
  {
    if Delivered(log, e) {
      var k :| 0 <= k < |log| && HasId(log[k], e.id) && SameEvent(log[k].value.event, e);
      forall j | 0 <= j < |log| && HasId(log[j], e.id)
        ensures j == k
      {
      }
    }
  }

  // ---------- how things get into the two files ----------

  lemma AppendDelivers(log: Lines<Event>, e: Event)
    requires !Conflicts(log, e)
    ensures !e.id.NoId? ==> Delivered(Appended(log, e), e)
  {
    if !e.id.NoId? {
      var more := Appended(log, e);
      if Logged(log, e.id) {
        var i :| 0 <= i < |log| && HasId(log[i], e.id);
        assert HasId(more[i], e.id) && SameEvent(more[i].value.event, e);
      } else {
        assert HasId(more[|log|], e.id) && SameEvent(more[|log|].value.event, e);
      }
    }
  }

  lemma DeliveredSame(log: Lines<Event>, e: Event, f: Event)
    requires SameEvent(e, f)
    ensures Delivered(log, e) <==> Delivered(log, f)
  {
    assert e.id == e.(at := 0).id == f.(at := 0).id == f.id;
    if Delivered(log, e) {
      var i :| 0 <= i < |log| && HasId(log[i], e.id) && SameEvent(log[i].value.event, e);
      assert HasId(log[i], f.id) && SameEvent(log[i].value.event, f);
    }
    if Delivered(log, f) {
      var i :| 0 <= i < |log| && HasId(log[i], f.id) && SameEvent(log[i].value.event, f);
      assert HasId(log[i], e.id) && SameEvent(log[i].value.event, e);
    }
  }

  lemma DeliveredByStep(s: Sys, a: Action, t: Sys, e: Event)
    requires Next(s, a, t) && !e.id.NoId?
    ensures Delivered(t.log, e) <==> Delivered(s.log, e) || (a.Append? && SameEvent(a.event, e))
  {
    FilesGrow(s, a, t);
    if Delivered(s.log, e) {
      DeliveredStays(s.log, t.log, e);
    }
    if a.Append? {
      if SameEvent(a.event, e) {
        assert a.event.id == a.event.(at := 0).id == e.(at := 0).id == e.id;
        AppendDelivers(s.log, a.event);
        DeliveredSame(t.log, a.event, e);
      } else if Delivered(t.log, e) {
        var i :| 0 <= i < |t.log| && HasId(t.log[i], e.id) && SameEvent(t.log[i].value.event, e);
        if i < |s.log| {
          assert HasId(s.log[i], e.id);
        }
      }
    }
  }

  /** The log held the event from the start, or someone appended it. */
  ghost predicate EverAppended(run: seq<Sys>, acts: seq<Action>, i: nat, e: Event)
    requires run != []
  {
    Delivered(run[0].log, e) || exists k :: 0 <= k < i <= |acts| && acts[k].Append? && SameEvent(acts[k].event, e)
  }

  lemma {:induction false} DeliveredIffAppended(run: seq<Sys>, acts: seq<Action>, i: nat, e: Event)
    requires IsRun(run, acts) && i < |run| && !e.id.NoId?
    ensures Delivered(run[i].log, e) <==> EverAppended(run, acts, i, e)
  {
    hide Next, Delivered, SameEvent, Chain, UniqueIds;
    if i > 0 {
      DeliveredIffAppended(run, acts, i - 1, e);
      assert StepAt(run, acts, i - 1);
      DeliveredByStep(run[i - 1], acts[i - 1], run[i], e);
      if EverAppended(run, acts, i, e) && !Delivered(run[0].log, e) {
        var k :| 0 <= k < i && acts[k].Append? && SameEvent(acts[k].event, e);
        assert k < i - 1 || k == i - 1;
      }
    }
  }

  lemma RecordedByStep(s: Sys, a: Action, t: Sys, id: EventId)
    requires Next(s, a, t)
    ensures Recorded(t.repairs, id) <==> Recorded(s.repairs, id) || (a.Note? && a.record.id == id)
  {
    FilesGrow(s, a, t);
    if Recorded(s.repairs, id) {
      RecordedStays(s.repairs, t.repairs, id);
    } else if a.Note? && a.record.id == id {
      assert t.repairs[|s.repairs|].id == id;
    }
  }

  ghost predicate EverNoted(run: seq<Sys>, acts: seq<Action>, i: nat, id: EventId)
    requires run != []
  {
    Recorded(run[0].repairs, id) || exists k :: 0 <= k < i <= |acts| && acts[k].Note? && acts[k].record.id == id
  }

  lemma {:induction false} RecordedIffNoted(run: seq<Sys>, acts: seq<Action>, i: nat, id: EventId)
    requires IsRun(run, acts) && i < |run|
    ensures Recorded(run[i].repairs, id) <==> EverNoted(run, acts, i, id)
  {
    hide Next, Recorded, Chain, UniqueIds;
    if i > 0 {
      RecordedIffNoted(run, acts, i - 1, id);
      assert StepAt(run, acts, i - 1);
      RecordedByStep(run[i - 1], acts[i - 1], run[i], id);
      if EverNoted(run, acts, i, id) && !Recorded(run[0].repairs, id) {
        var k :| 0 <= k < i && acts[k].Note? && acts[k].record.id == id;
        assert k < i - 1 || k == i - 1;
      }
    }
  }

  // ---------- who marked a row ----------

  /** One of the first i steps is this command marking the row of this name. */
  ghost predicate MarkedBy(acts: seq<Action>, i: nat, key: Key, c: Command) {
    exists j :: 0 <= j < i <= |acts| && acts[j] == Finalize(key, c)
  }

  ghost predicate Settled(run: seq<Sys>, acts: seq<Action>, i: nat, r: Row, c: Command)
    requires i < |run|
  {
    Takes(c, r) && Copied(run[i], c, r.payload) && MarkedBy(acts, i, r.key, c)
  }

  lemma SettledStays(run: seq<Sys>, acts: seq<Action>, i: nat, r: Row, c: Command)
    requires IsRun(run, acts) && i < |acts| && Settled(run, acts, i, r, c)
    ensures Settled(run, acts, i + 1, r, c)
  {
    hide Copied, Next;
    assert StepAt(run, acts, i);
    FilesGrow(run[i], acts[i], run[i + 1]);
    CopiedStays(run[i], run[i + 1], c, r.payload);
    var j :| 0 <= j < i && acts[j] == Finalize(r.key, c);
  }

  /** A row marked done was marked by a command that takes such rows and had copied it. */
  lemma {:induction false} MarkedHow(run: seq<Sys>, acts: seq<Action>, i: nat, k: nat) returns (c: Command)
    requires IsRun(run, acts) && i < |run| && k < |run[i].outbox| && run[i].outbox[k].finalized
    ensures Settled(run, acts, i, run[i].outbox[k].(finalized := false), c)
  {
    hide Next, Copied, Takes, Inv;
    var s, a, t := run[i - 1], acts[i - 1], run[i];
    RunKeeps(run, acts, i - 1);
    assert StepAt(run, acts, i - 1);
    RowsKeptStep(s, a, t);
    var r := t.outbox[k].(finalized := false);
    if s.outbox[k].finalized {
      c := MarkedHow(run, acts, i - 1, k);
      SettledStays(run, acts, i - 1, r, c);
    } else {
      MarkedNow(s, a, t, k);
      c := a.command;
      assert acts[i - 1] == Finalize(r.key, c);
    }
  }

  lemma MarkedNow(s: Sys, a: Action, t: Sys, k: nat)
    requires Inv(s) && Next(s, a, t) && k < |s.outbox| && k < |t.outbox| && !s.outbox[k].finalized && t.outbox[k].finalized
    ensures a.Finalize? && a.key == s.outbox[k].key && Takes(a.command, s.outbox[k])
    ensures s.outbox[k] == t.outbox[k].(finalized := false) && Copied(t, a.command, s.outbox[k].payload)
  {
    hide RowsOf, EnqueueAll, Chain, UniqueIds, WellFormed, Conflicts, Appended, Delivered, Recorded, AsEvent, AsRecord;
    if a.Commit? {
      RowsWellFormed(a.batch);
      EnqueueAllKeeps(s.outbox, RowsOf(a.batch));
    }
  }

  // ---------- the outcome of a drained table ----------

  function AttemptOf(a: Action): Option<Attempt> {
    if a.Commit? && !a.batch.RepairBatch? then Some(a.batch.attempt) else None
  }

  /** Digests tell the executed artifacts apart. */
  ghost predicate DigestsIdentify(acts: seq<Action>) {
    forall i, j | 0 <= i < |acts| && 0 <= j < |acts| && AttemptOf(acts[i]).Some? && AttemptOf(acts[j]).Some? ::
      var a, b := AttemptOf(acts[i]).value.artifact, AttemptOf(acts[j]).value.artifact;
      a.digest == b.digest ==> a == b
  }

  /** The event was committed with a down migration among the first i steps. */
  ghost predicate DownCommitted(acts: seq<Action>, i: nat, e: Event) {
    exists j :: 0 <= j < i <= |acts| && acts[j].Commit? && acts[j].batch.DownBatch? && e in acts[j].batch.events
  }

  ghost predicate ApplyCommitted(acts: seq<Action>, i: nat, e: Event) {
    exists j :: 0 <= j < i <= |acts| && acts[j].Commit? && acts[j].batch.ApplyBatch? && e in acts[j].batch.events
  }

  ghost predicate RepairCommitted(acts: seq<Action>, i: nat, proposal: string) {
    exists j :: 0 <= j < i <= |acts| && acts[j].Commit? && acts[j].batch.RepairBatch? && acts[j].batch.proposal == proposal
  }

  function DownRow(e: Event): Row { Row(EventKey(e.id), StoredEvent(e), false) }

  function ApplyRow(e: Event): Row { Row(PayloadKey(e), StoredEvent(e), false) }

  lemma DownRowCommitted(run: seq<Sys>, acts: seq<Action>, i: nat, e: Event)
    requires IsRun(run, acts) && i < |run| && DownCommitted(acts, i, e)
    ensures CommittedRow(acts, i, DownRow(e)) && e.id.LifecycleId?
  {
    hide Next;
    var j :| 0 <= j < i && acts[j].Commit? && acts[j].batch.DownBatch? && e in acts[j].batch.events;
    var b := acts[j].batch;
    var k :| 0 <= k < |b.events| && b.events[k] == e;
    assert RowsOf(b)[k] == DownRow(e);
    BuiltBatch(run, acts, j);
    EventsAreIdentified(b.attempt, b.events, k);
  }

  lemma BuiltBatch(run: seq<Sys>, acts: seq<Action>, j: nat)
    requires IsRun(run, acts) && j < |acts| && acts[j].Commit?
    ensures Built(acts[j].batch)
  {
    assert StepAt(run, acts, j);
  }

  lemma ApplyRowCommitted(run: seq<Sys>, acts: seq<Action>, i: nat, e: Event)
    requires IsRun(run, acts) && i < |run| && ApplyCommitted(acts, i, e)
    ensures CommittedRow(acts, i, ApplyRow(e)) && e.id.LifecycleId?
  {
    hide Next;
    var j :| 0 <= j < i && acts[j].Commit? && acts[j].batch.ApplyBatch? && e in acts[j].batch.events;
    var b := acts[j].batch;
    var k :| 0 <= k < |b.events| && b.events[k] == e;
    assert RowsOf(b)[k] == ApplyRow(e);
    BuiltBatch(run, acts, j);
    EventsAreIdentified(b.attempt, b.events, k);
  }

  /** Rows named by a lifecycle identity come from down migrations. */
  lemma NamedByEvent(acts: seq<Action>, i: nat, r: Row)
    requires CommittedRow(acts, i, r) && r.key.EventKey? && r.key.id.LifecycleId?
    ensures r.payload.StoredEvent? && r.payload.event.id == r.key.id && DownCommitted(acts, i, r.payload.event)
  {
    var j :| 0 <= j < i <= |acts| && acts[j].Commit? && r.(finalized := false) in RowsOf(acts[j].batch);
    var rows := RowsOf(acts[j].batch);
    var k :| 0 <= k < |rows| && rows[k] == r.(finalized := false);
    if acts[j].batch.DownBatch? {
      assert acts[j].batch.events[k] == r.payload.event;
    }
  }

  lemma NamedByPayload(acts: seq<Action>, i: nat, r: Row)
    requires CommittedRow(acts, i, r) && r.key.PayloadKey?
    ensures r.payload == StoredEvent(r.key.event)
  {
    var j :| 0 <= j < i <= |acts| && acts[j].Commit? && r.(finalized := false) in RowsOf(acts[j].batch);
    var rows := RowsOf(acts[j].batch);
    var k :| 0 <= k < |rows| && rows[k] == r.(finalized := false);
  }

  lemma NamedByRepair(acts: seq<Action>, i: nat, r: Row)
    requires CommittedRow(acts, i, r) && r.key.EventKey? && r.key.id.RepairId?
    ensures PayloadId(r.payload) == r.key.id
  {
    var j :| 0 <= j < i <= |acts| && acts[j].Commit? && r.(finalized := false) in RowsOf(acts[j].batch);
    var rows := RowsOf(acts[j].batch);
    var k :| 0 <= k < |rows| && rows[k] == r.(finalized := false);
  }

  /** Down migrations commit one event per identity, up to its time. */
  lemma CommittedSame(run: seq<Sys>, acts: seq<Action>, i: nat, e: Event, f: Event)
    requires IsRun(run, acts) && DigestsIdentify(acts) && i < |run| && e.id == f.id
    requires DownCommitted(acts, i, e) && DownCommitted(acts, i, f)
    ensures SameEvent(e, f)
  {
    hide IsRun, SameEvent;
    var j :| 0 <= j < i <= |acts| && acts[j].Commit? && acts[j].batch.DownBatch? && e in acts[j].batch.events;
    var k :| 0 <= k < i <= |acts| && acts[k].Commit? && acts[k].batch.DownBatch? && f in acts[k].batch.events;
    BuiltBatch(run, acts, j);
    BuiltBatch(run, acts, k);
    var x, y := acts[j].batch, acts[k].batch;
    var m :| 0 <= m < |x.events| && x.events[m] == e;
    var n :| 0 <= n < |y.events| && y.events[n] == f;
    assert AttemptOf(acts[j]).Some? && AttemptOf(acts[k]).Some?;
    SameIdentitySameEvent(x.attempt, x.events, m, y.attempt, y.events, n);
  }

  /** The row of this name, once everything is marked. */
  lemma RowOf(run: seq<Sys>, acts: seq<Action>, i: nat, r: Row) returns (k: nat, c: Command)
    requires IsRun(run, acts) && i < |run| && AllFinalized(run[i].outbox) && CommittedRow(acts, i, r)
    ensures k < |run[i].outbox| && run[i].outbox[k].key == r.key && CommittedRow(acts, i, run[i].outbox[k])
    ensures WellFormed(run[i].outbox[k]) && Settled(run, acts, i, run[i].outbox[k].(finalized := false), c)
  {
    hide IsRun, Settled, CommittedRow, WellFormed;
    CommittedHasRow(run, acts, i, r);
    k :| 0 <= k < |run[i].outbox| && run[i].outbox[k].key == r.key;
    RowsComeFromCommits(run, acts, i, k);
    c := MarkedHow(run, acts, i, k);
  }

  /** Repair marked the row of this event, and nobody ever put the event into the log. */
  ghost predicate LostToRepair(run: seq<Sys>, acts: seq<Action>, i: nat, e: Event)
    requires run != []
  {
    MarkedBy(acts, i, EventKey(e.id), Repair) && !EverAppended(run, acts, i, e)
  }

  /**
   Once nothing is pending, an event committed with a down migration is in the log,
   exactly once and as committed, if and only if it was not lost to a repair, which
   copies pending rows of a down migration to its own audit and marks them. What is lost
   to the log is in the repair audit.
   */
  lemma DownEventsLoggedUnlessLost(run: seq<Sys>, acts: seq<Action>, i: nat, e: Event)
    requires IsRun(run, acts) && DigestsIdentify(acts) && i < |run|
    requires AllFinalized(run[i].outbox) && DownCommitted(acts, i, e)
    ensures LoggedOnce(run[i].log, e) <==> !LostToRepair(run, acts, i, e)
    ensures LostToRepair(run, acts, i, e) ==> Recorded(run[i].repairs, e.id)
  {
    hide IsRun, Delivered, LoggedOnce, EverAppended, CommittedRow, DownCommitted, MarkedBy, SameEvent, Chain, UniqueIds;
    DownRowCommitted(run, acts, i, e);
    var k, c := RowOf(run, acts, i, DownRow(e));
    var r := run[i].outbox[k];
    NamedByEvent(acts, i, r);
    var f := r.payload.event;
    CommittedSame(run, acts, i, f, e);
    DeliveredSame(run[i].log, f, e);
    DeliveredIffAppended(run, acts, i, e);
    RunKeeps(run, acts, i);
    DeliveredOnce(run[i].log, e);
  }

  /** An event committed by apply is never lost: its row is not named by its identity, so repair leaves it alone. */
  lemma ApplyEventsLogged(run: seq<Sys>, acts: seq<Action>, i: nat, e: Event)
    requires IsRun(run, acts) && i < |run| && AllFinalized(run[i].outbox) && ApplyCommitted(acts, i, e)
    ensures LoggedOnce(run[i].log, e)
  {
    hide IsRun, Delivered, LoggedOnce, CommittedRow, ApplyCommitted, MarkedBy, Chain, UniqueIds;
    ApplyRowCommitted(run, acts, i, e);
    var k, c := RowOf(run, acts, i, ApplyRow(e));
    NamedByPayload(acts, i, run[i].outbox[k]);
    RunKeeps(run, acts, i);
    DeliveredOnce(run[i].log, e);
  }

  /** Down or apply marked the row of this repair, and nobody ever noted it in the repair audit. */
  ghost predicate LostToMigration(run: seq<Sys>, acts: seq<Action>, i: nat, proposal: string)
    requires run != []
  {
    var key := EventKey(RepairId(proposal));
    (MarkedBy(acts, i, key, Down) || MarkedBy(acts, i, key, Apply)) && !EverNoted(run, acts, i, RepairId(proposal))
  }

  /** The same the other way round: down and apply copy a pending repair record to the lifecycle log. */
  lemma RepairsNotedUnlessLost(run: seq<Sys>, acts: seq<Action>, i: nat, proposal: string)
    requires IsRun(run, acts) && i < |run| && AllFinalized(run[i].outbox) && RepairCommitted(acts, i, proposal)
    ensures Recorded(run[i].repairs, RepairId(proposal)) <==> !LostToMigration(run, acts, i, proposal)
    ensures LostToMigration(run, acts, i, proposal) ==> Logged(run[i].log, RepairId(proposal))
  {
    hide IsRun, EverNoted, CommittedRow, MarkedBy, Recorded;
    var j :| 0 <= j < i <= |acts| && acts[j].Commit? && acts[j].batch.RepairBatch? && acts[j].batch.proposal == proposal;
    var row := RowsOf(acts[j].batch)[0];
    assert CommittedRow(acts, i, row) by { JustCommitted(acts, j, row); RowStays(acts, j + 1, i, row); }
    var k, c := RowOf(run, acts, i, row);
    NamedByRepair(acts, i, run[i].outbox[k]);
    RecordedIffNoted(run, acts, i, RepairId(proposal));
  }

  lemma RowStays(acts: seq<Action>, i: nat, j: nat, r: Row)
    requires i <= j <= |acts| && CommittedRow(acts, i, r)
    ensures CommittedRow(acts, j, r)
  {
    hide RowsOf;
    var k :| 0 <= k < i && acts[k].Commit? && r.(finalized := false) in RowsOf(acts[k].batch);
  }

  // ---------- a run that loses every event of a down migration ----------

  /** The table with its first n rows marked. */
  function Marked(rows: seq<Row>, n: nat): seq<Row>
    requires n <= |rows|
  {
    seq(|rows|, i requires 0 <= i < |rows| => if i < n then rows[i].(finalized := true) else rows[i])
  }

  /** After the commit only repair has acted, and it has marked the first n rows. */
  ghost predicate Losing(run: seq<Sys>, acts: seq<Action>, b: Batch, log: Lines<Event>, rows: seq<Row>, n: nat)
    requires n <= |rows|
  {
    && IsRun(run, acts) && run[0].log == log && acts != [] && acts[0] == Commit(b)
    && (forall i | 0 < i < |acts| :: acts[i].Note? || acts[i].Finalize?)
    && run[|acts|].log == log && run[|acts|].outbox == Marked(rows, n)
    && (forall k | 0 <= k < n :: MarkedBy(acts, |acts|, rows[k].key, Repair))
  }

  lemma MarkedByGrows(acts: seq<Action>, more: seq<Action>, key: Key, c: Command)
    requires acts <= more && MarkedBy(acts, |acts|, key, c)
    ensures MarkedBy(more, |more|, key, c)
  {
    var j :| 0 <= j < |acts| && acts[j] == Finalize(key, c);
    assert more[j] == Finalize(key, c);
  }

  /** Repair copies one more row to its own audit and marks it. */
  lemma LoseNext(run: seq<Sys>, acts: seq<Action>, b: Batch, log: Lines<Event>, rows: seq<Row>, n: nat)
    returns (run': seq<Sys>, acts': seq<Action>)
    requires n < |rows| && Losing(run, acts, b, log, rows, n) && !rows[n].finalized && Takes(Repair, rows[n])
    ensures Losing(run', acts', b, log, rows, n + 1)
  {
    hide Chain, UniqueIds, Built, RowsOf, EnqueueAll;
    var r, s := rows[n], run[|acts|];
    var note := Note(AsRecord(r.payload));
    var t := s.(repairs := Noted(s.repairs, note.record));
    assert Recorded(t.repairs, PayloadId(r.payload)) by { RecordedByStep(s, note, t, PayloadId(r.payload)); }
    ExtendRun(run, acts, note, t);
    var u := t.(outbox := Marked(rows, n + 1));
    assert u.outbox == t.outbox[n := r.(finalized := true)];
    assert FinalizesAt(t, n, r.key, Repair, u);
    run', acts' := run + [t], acts + [note];
    ExtendRun(run', acts', Finalize(r.key, Repair), u);
    run', acts' := run' + [u], acts' + [Finalize(r.key, Repair)];
    forall k | 0 <= k < n + 1
      ensures MarkedBy(acts', |acts'|, rows[k].key, Repair)
    {
      if k < n {
        MarkedByGrows(acts, acts', rows[k].key, Repair);
      } else {
        assert acts'[|acts'| - 1] == Finalize(r.key, Repair);
      }
    }
  }

  /** A down migration commits and crashes, and a repair runs next: nothing is pending and the log has none of the events. */
  lemma RepairLosesEvents(x: Attempt, events: seq<Event>, log: Lines<Event>) returns (run: seq<Sys>, acts: seq<Action>)
    requires Timed(events, EventsOf(x)) && Chain(log) && UniqueIds(log)
    requires forall k | 0 <= k < |events| :: !Delivered(log, events[k])
    ensures IsRun(run, acts) && DigestsIdentify(acts) && acts != [] && acts[0] == Commit(DownBatch(x, events))
    ensures AllFinalized(run[|acts|].outbox) && run[|acts|].log == log
    ensures forall k | 0 <= k < |events| ::
              DownCommitted(acts, |acts|, events[k]) && LostToRepair(run, acts, |acts|, events[k])
  {
    hide Chain, UniqueIds, Delivered, Timed, EventsOf, Losing;
    var b := DownBatch(x, events);
    var rows := EnqueueAll([], RowsOf(b));
    run, acts := StartLosing(b, log);
    for n := 0 to |rows|
      invariant Losing(run, acts, b, log, rows, n)
    {
      RowsTaken(b, n);
      run, acts := LoseNext(run, acts, b, log, rows, n);
    }
    AllLost(run, acts, b, log, rows);
  }

  lemma StartLosing(b: Batch, log: Lines<Event>) returns (run: seq<Sys>, acts: seq<Action>)
    requires Built(b) && Chain(log) && UniqueIds(log)
    ensures Losing(run, acts, b, log, EnqueueAll([], RowsOf(b)), 0)
  {
    hide Chain, UniqueIds, Built, RowsOf, EnqueueAll;
    var rows := EnqueueAll([], RowsOf(b));
    run, acts := [Sys(log, [], []), Sys(log, [], rows)], [Commit(b)];
    assert Marked(rows, 0) == rows;
    assert Next(run[0], acts[0], run[1]);
  }

  lemma RowsTaken(b: Batch, n: nat)
    requires b.DownBatch? && Built(b) && n < |EnqueueAll([], RowsOf(b))|
    ensures var r := EnqueueAll([], RowsOf(b))[n]; !r.finalized && Takes(Repair, r)
  {
    hide Built, EnqueueAll;
    RowsWellFormed(b);
    EnqueueAllKeeps([], RowsOf(b));
  }

  lemma AllLost(run: seq<Sys>, acts: seq<Action>, b: Batch, log: Lines<Event>, rows: seq<Row>)
    requires b.DownBatch? && Built(b) && rows == EnqueueAll([], RowsOf(b)) && Losing(run, acts, b, log, rows, |rows|)
    requires forall k | 0 <= k < |b.events| :: !Delivered(log, b.events[k])
    ensures IsRun(run, acts) && acts != [] && acts[0] == Commit(b) && DigestsIdentify(acts)
    ensures AllFinalized(run[|acts|].outbox) && run[|acts|].log == log
    ensures forall k | 0 <= k < |b.events| ::
              DownCommitted(acts, |acts|, b.events[k]) && LostToRepair(run, acts, |acts|, b.events[k])
  {
    hide Built, EnqueueAll, Next, Chain, UniqueIds, Delivered, SameEvent, MarkedBy;
    RowsWellFormed(b);
    EnqueueAllKeeps([], RowsOf(b));
    forall k | 0 <= k < |b.events|
      ensures DownCommitted(acts, |acts|, b.events[k]) && LostToRepair(run, acts, |acts|, b.events[k])
    {
      assert HasRow(rows, RowsOf(b)[k].key);
      var m :| 0 <= m < |rows| && rows[m].key == RowsOf(b)[k].key;
      assert MarkedBy(acts, |acts|, rows[m].key, Repair);
    }
  }
}
