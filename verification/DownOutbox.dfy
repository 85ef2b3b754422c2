/**
 The outbox table that three commands share. A down migration and a versioned apply commit
 their lifecycle events with the migration and a repair commits its audit record, each as
 outbox rows; afterwards the rows are copied to the lifecycle log or the repair audit and
 marked done. A crash anywhere in between leaves rows pending, and whichever of the three
 commands runs next drains them, not necessarily to where they belong.
 */
module DownOutbox {
  import opened Options
  import opened HashChain
  import opened ExecutionTypes
  import opened ExternalExecution
  import opened LifecycleLog

  /** An entry of the repair audit; the proposal stands for all it says about the repair. */
  datatype AuditRecord = AuditRecord(id: EventId, typ: EventType, proposal: string, at: int)

  function RepairApplied(proposal: string, at: int): AuditRecord {
    AuditRecord(RepairId(proposal), OtherType("repair_applied"), proposal, at)
  }

  datatype Payload = StoredEvent(event: Event) | StoredRecord(record: AuditRecord) | Malformed

  function PayloadId(p: Payload): EventId {
    match p
    case StoredEvent(e) => e.id
    case StoredRecord(r) => r.id
    case Malformed => NoId
  }

  /** Both kinds of payload decode as an event, which takes the fields of its own names and ignores the others. */
  function AsEvent(p: Payload): Event
    requires !p.Malformed?
  {
    match p
    case StoredEvent(e) => e
    case StoredRecord(r) => Event(r.id, r.typ, "", "", "", "", "", "", "", r.at, 0)
  }

  /** Both decode as an audit record too. */
  function AsRecord(p: Payload): AuditRecord
    requires !p.Malformed?
  {
    match p
    case StoredEvent(e) => AuditRecord(e.id, e.typ, "", e.at)
    case StoredRecord(r) => r
  }

  /** Down and repair name a row by the identity of what it holds, apply by the digest of the whole event. */
  datatype Key = EventKey(id: EventId) | PayloadKey(event: Event)

  datatype Row = Row(key: Key, payload: Payload, finalized: bool)

  /** What survives a crash. */
  datatype Sys = Sys(log: Lines<Event>, repairs: seq<AuditRecord>, outbox: seq<Row>)

  datatype Command = Down | Apply | Repair

  /** What one transaction commits. */
  datatype Batch =
    | DownBatch(attempt: Attempt, events: seq<Event>)
    | ApplyBatch(attempt: Attempt, events: seq<Event>)
    | RepairBatch(proposal: string, at: int)

  /** An append to the log or the repair audit by anyone, a commit, a row marked done by one of the commands. */
  datatype Action = Append(event: Event) | Note(record: AuditRecord) | Commit(batch: Batch) | Finalize(key: Key, command: Command)

  predicate Built(b: Batch) { b.RepairBatch? || Timed(b.events, EventsOf(b.attempt)) }

  function RowsOf(b: Batch): seq<Row> {
    match b
    case DownBatch(_, events) =>
      seq(|events|, i requires 0 <= i < |events| => Row(EventKey(events[i].id), StoredEvent(events[i]), false))
    case ApplyBatch(_, events) =>
      seq(|events|, i requires 0 <= i < |events| => Row(PayloadKey(events[i]), StoredEvent(events[i]), false))
    case RepairBatch(proposal, at) =>
      [Row(EventKey(RepairId(proposal)), StoredRecord(RepairApplied(proposal, at)), false)]
  }

  predicate HasRow(outbox: seq<Row>, key: Key) { exists i :: 0 <= i < |outbox| && outbox[i].key == key }

  /** An insert that leaves an existing row alone. */
  function Enqueue(outbox: seq<Row>, r: Row): seq<Row> { if HasRow(outbox, r.key) then outbox else outbox + [r] }

  function EnqueueAll(outbox: seq<Row>, rows: seq<Row>): seq<Row> {
    if rows == [] then outbox else Enqueue(EnqueueAll(outbox, rows[..|rows| - 1]), rows[|rows| - 1])
  }

  /** The log holds this event. */
  ghost predicate Delivered(log: Lines<Event>, e: Event) {
    exists i :: 0 <= i < |log| && HasId(log[i], e.id) && SameEvent(log[i].value.event, e)
  }

  predicate Recorded(repairs: seq<AuditRecord>, id: EventId) { exists i :: 0 <= i < |repairs| && repairs[i].id == id }

  /** The repair audit takes one record per identity. */
  function Noted(repairs: seq<AuditRecord>, r: AuditRecord): seq<AuditRecord> {
    if Recorded(repairs, r.id) then repairs else repairs + [r]
  }

  predicate PendingAt(outbox: seq<Row>, i: int) { 0 <= i < |outbox| && !outbox[i].finalized }

  /** Apply takes every row it can decode, down and repair those named by what they hold. */
  predicate Takes(c: Command, r: Row) { !r.payload.Malformed? && (c.Apply? || r.key == EventKey(PayloadId(r.payload))) }

  /** The command has copied the row to its own file. */
  ghost predicate Copied(s: Sys, c: Command, p: Payload)
    requires !p.Malformed?
  {
    if c.Repair? then Recorded(s.repairs, PayloadId(p)) else Delivered(s.log, AsEvent(p))
  }

  ghost predicate FinalizesAt(s: Sys, i: int, key: Key, c: Command, t: Sys) {
    && PendingAt(s.outbox, i) && s.outbox[i].key == key && Takes(c, s.outbox[i]) && Copied(s, c, s.outbox[i].payload)
    && t == s.(outbox := s.outbox[i := s.outbox[i].(finalized := true)])
  }

  ghost predicate Next(s: Sys, a: Action, t: Sys) {
    match a
    case Append(e) => !Conflicts(s.log, e) && t == s.(log := Appended(s.log, e))
    case Note(r) => t == s.(repairs := Noted(s.repairs, r))
    case Commit(b) => Built(b) && t == s.(outbox := EnqueueAll(s.outbox, RowsOf(b)))
    case Finalize(key, c) => exists i :: FinalizesAt(s, i, key, c, t)
  }

  ghost predicate StepAt(run: seq<Sys>, acts: seq<Action>, i: nat)
    requires |run| == |acts| + 1 && i < |acts|
  {
    Next(run[i], acts[i], run[i + 1])
  }

  /** Every sequence of steps from an empty outbox and any intact log; crashes are the ends of its prefixes. */
  ghost predicate IsRun(run: seq<Sys>, acts: seq<Action>) {
    && |run| == |acts| + 1
    && run[0].outbox == [] && Chain(run[0].log) && UniqueIds(run[0].log)
    && forall i | 0 <= i < |acts| :: StepAt(run, acts, i)
  }

  lemma ExtendRun(run: seq<Sys>, acts: seq<Action>, a: Action, t: Sys)
    requires IsRun(run, acts) && Next(run[|run| - 1], a, t)
    ensures IsRun(run + [t], acts + [a])
  {
    hide Next;
    var more, moreActs := run + [t], acts + [a];
    forall i | 0 <= i < |moreActs|
      ensures StepAt(more, moreActs, i)
    {
      if i < |acts| {
        assert StepAt(run, acts, i);
      }
    }
  }

  // ---------- what every run keeps ----------

  ghost predicate RowsUnique(outbox: seq<Row>) {
    forall i, j | 0 <= i < j < |outbox| :: outbox[i].key != outbox[j].key
  }

  /** A row as one of the commands writes it. */
  predicate WellFormed(r: Row) {
    match r.payload
    case StoredEvent(e) => e.id.LifecycleId? && (r.key == EventKey(e.id) || r.key == PayloadKey(e))
    case StoredRecord(a) => a.id.RepairId? && r.key == EventKey(a.id)
    case Malformed => false
  }

  predicate AllWellFormed(rows: seq<Row>) { forall i | 0 <= i < |rows| :: WellFormed(rows[i]) }

  /** What is marked done was copied: to the log, or to the repair audit if repair takes such rows. */
  ghost predicate CopiedSomewhere(s: Sys, r: Row)
    requires !r.payload.Malformed?
  {
    Copied(s, Apply, r.payload) || (Takes(Repair, r) && Copied(s, Repair, r.payload))
  }

  ghost predicate Inv(s: Sys) {
    && Chain(s.log) && UniqueIds(s.log) && RowsUnique(s.outbox) && AllWellFormed(s.outbox)
    && (forall i | 0 <= i < |s.outbox| && s.outbox[i].finalized :: CopiedSomewhere(s, s.outbox[i]))
  }

  lemma DeliveredStays(log: Lines<Event>, more: Lines<Event>, e: Event)
    requires log <= more && Delivered(log, e)
    ensures Delivered(more, e)
  {
    var i :| 0 <= i < |log| && HasId(log[i], e.id) && SameEvent(log[i].value.event, e);
    assert more[i] == log[i];
  }

  lemma RecordedStays(repairs: seq<AuditRecord>, more: seq<AuditRecord>, id: EventId)
    requires repairs <= more && Recorded(repairs, id)
    ensures Recorded(more, id)
  {
    var i :| 0 <= i < |repairs| && repairs[i].id == id;
    assert more[i].id == id;
  }

  lemma CopiedStays(s: Sys, t: Sys, c: Command, p: Payload)
    requires !p.Malformed? && s.log <= t.log && s.repairs <= t.repairs && Copied(s, c, p)
    ensures Copied(t, c, p)
  {
    hide Delivered, Recorded;
    if c.Repair? {
      RecordedStays(s.repairs, t.repairs, PayloadId(p));
    } else {
      DeliveredStays(s.log, t.log, AsEvent(p));
    }
  }

  lemma RowsWellFormed(b: Batch)
    requires Built(b)
    ensures AllWellFormed(RowsOf(b)) && forall i | 0 <= i < |RowsOf(b)| :: !RowsOf(b)[i].finalized
  {
    hide Timed, EventsOf;
    if !b.RepairBatch? {
      forall i | 0 <= i < |b.events|
        ensures b.events[i].id.LifecycleId?
      {
        EventsAreIdentified(b.attempt, b.events, i);
      }
    }
  }

  lemma {:induction false} EnqueueAllKeeps(outbox: seq<Row>, rows: seq<Row>)
    requires RowsUnique(outbox) && AllWellFormed(outbox) && AllWellFormed(rows)
    ensures var more := EnqueueAll(outbox, rows);
      && outbox <= more && RowsUnique(more) && AllWellFormed(more)
      && (forall i | |outbox| <= i < |more| :: more[i] in rows)
      && (forall i | 0 <= i < |rows| :: HasRow(more, rows[i].key))
  {
    hide WellFormed;
    if rows != [] {
      var last := |rows| - 1;
      EnqueueAllKeeps(outbox, rows[..last]);
      var most, more := EnqueueAll(outbox, rows[..last]), EnqueueAll(outbox, rows);
      assert forall i | 0 <= i < last :: rows[..last][i] == rows[i];
      forall i | 0 <= i < |rows|
        ensures HasRow(more, rows[i].key)
      {
        if i < last {
          assert HasRow(most, rows[..last][i].key);
          HasRowStays(most, more, rows[i].key);
        } else if more != most {
          assert more[|most|].key == rows[last].key;
        }
      }
    }
  }

  lemma HasRowStays(outbox: seq<Row>, more: seq<Row>, key: Key)
    requires outbox <= more && HasRow(outbox, key)
    ensures HasRow(more, key)
  {
    var i :| 0 <= i < |outbox| && outbox[i].key == key;
    assert more[i].key == key;
  }

  lemma FilesGrow(s: Sys, a: Action, t: Sys)
    requires Next(s, a, t)
    ensures s.log <= t.log && s.repairs <= t.repairs
  {
    hide Conflicts, Built;
  }

  lemma InvStep(s: Sys, a: Action, t: Sys)
    requires Inv(s) && Next(s, a, t)
    ensures Inv(t)
  {
    hide Chain, UniqueIds, Delivered, Appended, Built, Recorded, Conflicts, EnqueueAll, RowsOf;
    FilesGrow(s, a, t);
    match a {
      case Append(e) => AppendedKeepsLog(s.log, e);
      case Note(r) =>
      case Commit(b) =>
        RowsWellFormed(b);
        EnqueueAllKeeps(s.outbox, RowsOf(b));
      case Finalize(key, c) =>
    }
    forall i | 0 <= i < |t.outbox| && t.outbox[i].finalized
      ensures !t.outbox[i].payload.Malformed? && CopiedSomewhere(t, t.outbox[i])
    {
      CopyStays(s, a, t, i);
    }
  }

  lemma CopyStays(s: Sys, a: Action, t: Sys, i: nat)
    requires Inv(s) && Next(s, a, t) && i < |t.outbox| && t.outbox[i].finalized
    ensures !t.outbox[i].payload.Malformed? && CopiedSomewhere(t, t.outbox[i])
  {
    hide Chain, UniqueIds, Delivered, Appended, Recorded, Conflicts, EnqueueAll, RowsOf;
    FilesGrow(s, a, t);
    if a.Commit? {
      RowsWellFormed(a.batch);
      EnqueueAllKeeps(s.outbox, RowsOf(a.batch));
    }
    assert i < |s.outbox|;
    var p := s.outbox[i].payload;
    if s.outbox[i].finalized {
      if Copied(s, Apply, p) {
        CopiedStays(s, t, Apply, p);
      } else {
        CopiedStays(s, t, Repair, p);
      }
    }
  }

  lemma {:induction false} RunKeeps(run: seq<Sys>, acts: seq<Action>, i: nat)
    requires IsRun(run, acts) && i < |run|
    ensures Inv(run[i])
  {
    hide Inv, Next;
    if i == 0 {
      InitInv(run[0]);
    } else {
      RunKeeps(run, acts, i - 1);
      assert StepAt(run, acts, i - 1);
      InvStep(run[i - 1], acts[i - 1], run[i]);
    }
  }

  lemma InitInv(s: Sys)
    requires s.outbox == [] && Chain(s.log) && UniqueIds(s.log)
    ensures Inv(s)
  {}

  /** What is in the log or the repair audit stays there, at its place. */
  lemma {:induction false} LogOnlyGrows(run: seq<Sys>, acts: seq<Action>, i: nat, j: nat)
    requires IsRun(run, acts) && i <= j < |run|
    ensures run[i].log <= run[j].log && run[i].repairs <= run[j].repairs
  {
    hide Next;
    if i < j {
      LogOnlyGrows(run, acts, i, j - 1);
      assert StepAt(run, acts, j - 1);
      FilesGrow(run[j - 1], acts[j - 1], run[j]);
    }
  }

  // ---------- rows and commits ----------

  ghost predicate CommittedRow(acts: seq<Action>, i: nat, r: Row) {
    exists j :: 0 <= j < i <= |acts| && acts[j].Commit? && r.(finalized := false) in RowsOf(acts[j].batch)
  }

  lemma CommitStays(acts: seq<Action>, i: nat, r: Row, done: bool)
    requires i < |acts| && CommittedRow(acts, i, r)
    ensures CommittedRow(acts, i + 1, r.(finalized := done))
  {
    hide RowsOf;
  }

  lemma JustCommitted(acts: seq<Action>, i: nat, r: Row)
    requires i < |acts| && acts[i].Commit? && r.(finalized := false) in RowsOf(acts[i].batch)
    ensures CommittedRow(acts, i + 1, r)
  {
    hide RowsOf;
  }

  /** Rows keep their name and content; only the mark changes, and only to done. */
  ghost predicate RowsKept(outbox: seq<Row>, more: seq<Row>) {
    && |outbox| <= |more|
    && forall i | 0 <= i < |outbox| ::
         && more[i].key == outbox[i].key && more[i].payload == outbox[i].payload
         && (outbox[i].finalized ==> more[i].finalized)
  }

  lemma RowsKeptStep(s: Sys, a: Action, t: Sys)
    requires Inv(s) && Next(s, a, t)
    ensures RowsKept(s.outbox, t.outbox)
    ensures forall i | |s.outbox| <= i < |t.outbox| :: a.Commit? && t.outbox[i] in RowsOf(a.batch) && !t.outbox[i].finalized
    ensures a.Commit? ==> forall k | 0 <= k < |RowsOf(a.batch)| :: HasRow(t.outbox, RowsOf(a.batch)[k].key)
  {
    hide Delivered, Appended, Recorded, Chain, UniqueIds, WellFormed, Conflicts, RowsOf, EnqueueAll;
    if a.Commit? {
      RowsWellFormed(a.batch);
      EnqueueAllKeeps(s.outbox, RowsOf(a.batch));
    }
  }

  /** Rows come from commits only: a transaction that did not commit contributes none. */
  lemma {:induction false} RowsComeFromCommits(run: seq<Sys>, acts: seq<Action>, i: nat, k: nat)
    requires IsRun(run, acts) && i < |run| && k < |run[i].outbox|
    ensures WellFormed(run[i].outbox[k]) && CommittedRow(acts, i, run[i].outbox[k])
  {
    hide Next, CommittedRow, RowsOf, WellFormed, Chain, UniqueIds;
    RunKeeps(run, acts, i);
    if i > 0 {
      var s, a, t := run[i - 1], acts[i - 1], run[i];
      RunKeeps(run, acts, i - 1);
      assert StepAt(run, acts, i - 1);
      RowsKeptStep(s, a, t);
      if k < |s.outbox| {
        RowsComeFromCommits(run, acts, i - 1, k);
        assert t.outbox[k] == s.outbox[k].(finalized := t.outbox[k].finalized);
        CommitStays(acts, i - 1, s.outbox[k], t.outbox[k].finalized);
      } else {
        JustCommitted(acts, i - 1, t.outbox[k]);
      }
    }
  }

  /** Every committed row has its name in the table for the rest of the run. */
  lemma {:induction false} CommittedHasRow(run: seq<Sys>, acts: seq<Action>, i: nat, r: Row)
    requires IsRun(run, acts) && i < |run| && CommittedRow(acts, i, r)
    ensures HasRow(run[i].outbox, r.key)
  {
    hide Next, RowsOf, Inv;
    var j :| 0 <= j < i <= |acts| && acts[j].Commit? && r.(finalized := false) in RowsOf(acts[j].batch);
    RunKeeps(run, acts, i - 1);
    assert StepAt(run, acts, i - 1);
    RowsKeptStep(run[i - 1], acts[i - 1], run[i]);
    if j < i - 1 {
      CommittedHasRow(run, acts, i - 1, r);
      var k :| 0 <= k < |run[i - 1].outbox| && run[i - 1].outbox[k].key == r.key;
      assert run[i].outbox[k].key == r.key;
    } else {
      var rows := RowsOf(acts[j].batch);
      var k :| 0 <= k < |rows| && rows[k] == r.(finalized := false);
      assert HasRow(run[i].outbox, rows[k].key);
    }
  }
}
