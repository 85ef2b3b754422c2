/** What the approval trail records. */
module ApprovalEvents {
  datatype Reason = NoReason | Emergency(text: string) | Denied | ExpiredBeforeMutation

  datatype EventType = ApplyAuthorized | ApplyDenied

  datatype Event = Event(
    at: int, typ: EventType, planDigest: string, environment: string, actor: string, reason: Reason,
    approvers: seq<string>, emergency: bool, allowed: bool)
}

/**
 The approval trail: any number of writers read the tail of one file and append with a
 compare-and-swap on the last hash.
 */
module ApprovalChain {
  import opened Options
  import opened HashChain
  import opened ApprovalEvents

  type File = Lines<Event>

  /** A writer between reading the tail and appending. */
  datatype Pc = Idle | Ready(expected: Hash<Event>, record: Record<Event>)

  datatype Sys = Sys(file: File, writers: seq<Pc>)

  /** A write can fail before it reaches the file, or reach it and be reported as failed. */
  datatype Fault = NoFault | NotWritten | Unconfirmed

  datatype Action = ReadTail(writer: nat, event: Event) | TryAppend(writer: nat, fault: Fault)

  /** The locked append accepts the record. */
  predicate Accepts(file: File, expected: Hash<Event>, r: Record<Event>) {
    && TailHash(file) == expected
    && r.hash == RecordHash(r) && r.previous == expected && r.sequence == |file| + 1
  }

  ghost predicate Next(s: Sys, a: Action, t: Sys) {
    && a.writer < |s.writers|
    && match a
       case ReadTail(w, e) =>
         && s.writers[w].Idle?
         && t == s.(writers := s.writers[w := Ready(TailHash(s.file), NextRecord(s.file, e))])
       case TryAppend(w, _) =>
         && s.writers[w].Ready?
         && t == Sys(if Writes(s, a) then s.file + [Some(s.writers[w].record)] else s.file, s.writers[w := Idle])
  }

  /** The append reaches the file; only without a fault is it also reported as a success. */
  predicate Writes(s: Sys, a: Action) {
    a.TryAppend? && a.writer < |s.writers| && Wins(s, a.writer) && !a.fault.NotWritten?
  }

  predicate Wins(s: Sys, w: nat)
    requires w < |s.writers|
  {
    s.writers[w].Ready? && Accepts(s.file, s.writers[w].expected, s.writers[w].record)
  }

  ghost predicate StepAt(run: seq<Sys>, acts: seq<Action>, i: nat)
    requires |run| == |acts| + 1 && i < |acts|
  {
    Next(run[i], acts[i], run[i + 1])
  }

  /** Every interleaving of the writers' steps, from an intact file. */
  ghost predicate IsRun(run: seq<Sys>, acts: seq<Action>) {
    && |run| == |acts| + 1 && Chain(run[0].file)
    && (forall w | 0 <= w < |run[0].writers| :: run[0].writers[w].Idle?)
    && forall i | 0 <= i < |acts| :: StepAt(run, acts, i)
  }

  // ---------- what every interleaving keeps ----------

  /** A waiting writer prepared the successor of a file that the present one extends. */
  ghost predicate Prepared(file: File, pc: Pc) {
    pc.Ready? ==>
      var k := pc.record.sequence - 1;
      0 <= k <= |file| && pc.expected == TailHash(file[..k]) && pc.record == NextRecord(file[..k], pc.record.event)
  }

  ghost predicate Inv(s: Sys) {
    Chain(s.file) && forall w | 0 <= w < |s.writers| :: Prepared(s.file, s.writers[w])
  }

  lemma PreparedStays(file: File, more: File, pc: Pc)
    requires file <= more && Prepared(file, pc)
    ensures Prepared(more, pc)
  {
    if pc.Ready? {
      var k := pc.record.sequence - 1;
      assert more[..k] == file[..k];
    }
  }

  /** The compare-and-swap on the hash alone tells that nothing was appended since the tail was read. */
  lemma SameTailMeansUnchanged(file: File, pc: Pc)
    requires Chain(file) && pc.Ready? && Prepared(file, pc)
    ensures TailHash(file) == pc.expected <==> Accepts(file, pc.expected, pc.record)
    ensures TailHash(file) == pc.expected ==> pc.record == NextRecord(file, pc.record.event)
  {
    var k := pc.record.sequence - 1;
    if TailHash(file) == pc.expected {
      ChainPrefix(file, k);
      LastHashDeterminesChain(file, file[..k]);
      assert file[..|file|] == file;
    }
  }

  lemma InvStep(s: Sys, a: Action, t: Sys)
    requires Inv(s) && Next(s, a, t)
    ensures Inv(t) && s.file <= t.file && |s.writers| == |t.writers|
  {
    hide Chain, Prepared, Accepts;
    if Writes(s, a) {
      WinnerExtends(s, a.writer);
      ChainGrows(s.file, s.writers[a.writer].record.event);
    }
    forall w | 0 <= w < |t.writers|
      ensures Prepared(t.file, t.writers[w])
    {
      if w != a.writer {
        PreparedStays(s.file, t.file, s.writers[w]);
      } else if a.ReadTail? {
        JustRead(s.file, a.event);
      } else {
        IdlePrepared(t.file);
      }
    }
  }

  lemma WinnerExtends(s: Sys, w: nat)
    requires Inv(s) && w < |s.writers| && Wins(s, w)
    ensures s.writers[w].record == NextRecord(s.file, s.writers[w].record.event)
  {
    SameTailMeansUnchanged(s.file, s.writers[w]);
  }

  lemma JustRead(file: File, e: Event)
    ensures Prepared(file, Ready(TailHash(file), NextRecord(file, e)))
  {
    assert file[..|file|] == file;
  }

  lemma IdlePrepared(file: File)
    ensures Prepared(file, Idle)
  {}

  lemma {:induction false} RunKeeps(run: seq<Sys>, acts: seq<Action>, i: nat)
    requires IsRun(run, acts) && i < |run|
    ensures Inv(run[i])
  {
    hide Chain, Next;
    if i > 0 {
      RunKeeps(run, acts, i - 1);
      assert StepAt(run, acts, i - 1);
      InvStep(run[i - 1], acts[i - 1], run[i]);
    } else {
      forall w | 0 <= w < |run[0].writers|
        ensures Prepared(run[0].file, run[0].writers[w])
      {
        IdlePrepared(run[0].file);
      }
    }
  }

  /** The file stays an intact chain, and records are only ever added at its end. */
  lemma {:induction false} FileOnlyGrows(run: seq<Sys>, acts: seq<Action>, i: nat, j: nat)
    requires IsRun(run, acts) && i <= j < |run|
    ensures Chain(run[j].file) && run[i].file <= run[j].file
  {
    hide Next, Chain;
    RunKeeps(run, acts, j);
    if i < j {
      FileOnlyGrows(run, acts, i, j - 1);
      RunKeeps(run, acts, j - 1);
      assert StepAt(run, acts, j - 1);
      InvStep(run[j - 1], acts[j - 1], run[j]);
    }
  }

  /**
   A written record stays forever at its sequence number, whether its writer was told so
   or not; a writer that loses the comparison or whose write fails changes nothing.
   */
  lemma WinnersStay(run: seq<Sys>, acts: seq<Action>, i: nat, j: nat)
    requires IsRun(run, acts) && i < j < |run| && acts[i].TryAppend? && acts[i].writer < |run[i].writers|
    ensures var pc := run[i].writers[acts[i].writer];
      if Writes(run[i], acts[i])
      then pc.record.sequence == |run[i].file| + 1 <= |run[j].file| && run[j].file[pc.record.sequence - 1] == Some(pc.record)
      else run[i + 1].file == run[i].file
  {
    hide Chain;
    assert StepAt(run, acts, i);
    FileOnlyGrows(run, acts, i + 1, j);
  }

  /** Two written records never claim the same place. */
  lemma WinnersDiffer(run: seq<Sys>, acts: seq<Action>, i: nat, j: nat)
    requires IsRun(run, acts) && i < j < |acts| && Writes(run[i], acts[i]) && Writes(run[j], acts[j])
    ensures run[i].writers[acts[i].writer].record.sequence < run[j].writers[acts[j].writer].record.sequence
  {
    hide Chain;
    WinnersStay(run, acts, i, j);
  }

  /** A writer that wins appends to exactly the file whose tail it read. */
  lemma NoLostUpdate(run: seq<Sys>, acts: seq<Action>, r: nat, i: nat)
    requires IsRun(run, acts) && r < i < |acts| && acts[i].TryAppend? && acts[r].ReadTail? && acts[r].writer == acts[i].writer
    requires acts[i].writer < |run[i].writers| && Wins(run[i], acts[i].writer)
    requires forall k | r < k < i :: acts[k].writer != acts[i].writer
    ensures run[i].file == run[r].file
  {
    hide Chain;
    assert StepAt(run, acts, r);
    WaitsUnchanged(run, acts, acts[i].writer, r + 1, i);
    RunKeeps(run, acts, i);
    RunKeeps(run, acts, r);
    LastHashDeterminesChain(run[i].file, run[r].file);
  }

  lemma {:induction false} WaitsUnchanged(run: seq<Sys>, acts: seq<Action>, w: nat, r: nat, i: nat)
    requires IsRun(run, acts) && r <= i < |run| && w < |run[r].writers|
    requires forall k | r <= k < i :: acts[k].writer != w
    ensures w < |run[i].writers| && run[i].writers[w] == run[r].writers[w]
  {
    hide Chain;
    if r < i {
      WaitsUnchanged(run, acts, w, r, i - 1);
      assert StepAt(run, acts, i - 1);
    }
  }

  // ---------- the file ----------

  lemma ExtendRun(run: seq<Sys>, acts: seq<Action>, a: Action, t: Sys)
    requires IsRun(run, acts) && Next(run[|run| - 1], a, t)
    ensures IsRun(run + [t], acts + [a])
  {
    hide Next, Chain;
    var more, moreActs := run + [t], acts + [a];
    forall i | 0 <= i < |moreActs|
      ensures StepAt(more, moreActs, i)
    {
      if i < |acts| {
        assert StepAt(run, acts, i);
      }
    }
  }

  /** One process's view of the file: writer 0 is this process, writer 1 stands for all the others. */
  class FileSink {
    var lines: File
    ghost var run: seq<Sys>
    ghost var acts: seq<Action>

    /** The file is where a run of the system has led, with this process at `pc`. */
    ghost predicate TrackedAt(pc: Pc)
      reads this
    {
      IsRun(run, acts) && run[|run| - 1] == Sys(lines, [pc, Idle])
    }

    ghost predicate Tracked()
      reads this
    {
      TrackedAt(Idle)
    }

    constructor ()
      ensures lines == [] && Tracked()
    {
      lines := [];
      run, acts := [Sys([], [Idle, Idle])], [];
    }

    ghost method Log(a: Action, t: Sys)
      requires IsRun(run, acts) && Next(run[|run| - 1], a, t)
      modifies this`run, this`acts
      ensures IsRun(run, acts) && run == old(run) + [t] && acts == old(acts) + [a]
    {
      ExtendRun(run, acts, a, t);
      run, acts := run + [t], acts + [a];
    }

    /** Reads and validates the whole file. */
    method Load() returns (ok: bool, records: seq<Record<Event>>)
      ensures ok <==> Chain(lines)
      ensures ok ==> |records| == |lines| && forall i | 0 <= i < |lines| :: lines[i] == Some(records[i])
    {
      records := [];
      var previous: Hash<Event> := NoHash;
      for i := 0 to |lines|
        invariant |records| == i && previous == TailHash(lines[..i])
        invariant forall k | 0 <= k < i :: Links(lines, k) && lines[k] == Some(records[k])
      {
        if lines[i].None? {
          assert !Links(lines, i);
          return false, records;
        }
        var r := lines[i].value;
        if r.sequence != |records| + 1 || r.previous != previous || r.hash != RecordHash(r) {
          assert !Links(lines, i);
          return false, records;
        }
        records, previous := records + [r], r.hash;
      }
      ok := true;
    }

    method Tail() returns (ok: bool, tail: Option<Record<Event>>)
      ensures ok <==> Chain(lines)
      ensures ok ==> tail == if lines == [] then None else lines[|lines| - 1]
      ensures ok ==> (tail.Some? <==> lines != [])
    {
      var records;
      ok, records := Load();
      tail := if !ok || records == [] then None else Some(records[|records| - 1]);
    }

    /** Appends only to the file it expects; a failed write leaves the file before or after the append. */
    method AppendLocked(expected: Hash<Event>, r: Record<Event>) returns (ok: bool)
      modifies this`lines
      ensures ok ==> old(Chain(lines) && Accepts(lines, expected, r)) && lines == old(lines) + [Some(r)]
      ensures !ok ==> lines == old(lines) || (old(Chain(lines) && Accepts(lines, expected, r)) && lines == old(lines) + [Some(r)])
    {
      var intact, records := Load();
      if !intact {
        return false;
      }
      var actual := if records == [] then NoHash else records[|records| - 1].hash;
      if actual != expected {
        return false;
      }
      if r.hash != RecordHash(r) || r.previous != expected || r.sequence != |records| + 1 {
        return false;
      }
      var written: bool := *;
      ok := *;
      if written || ok {
        lines := lines + [Some(r)];
      }
    }

    /** Other writers win any number of appends while this process is at `pc`. */
    method Others(ghost pc: Pc)
      modifies this
      ensures old(lines) <= lines && (old(Chain(lines)) ==> Chain(lines))
      ensures old(TrackedAt(pc)) ==> TrackedAt(pc) && old(acts) <= acts
    {
      hide Chain, IsRun, Next;
      var n: int := *;
      var i := 0;
      while i < n
        invariant old(lines) <= lines && (old(Chain(lines)) ==> Chain(lines))
        invariant old(TrackedAt(pc)) ==> TrackedAt(pc) && old(acts) <= acts
      {
        var event: Event := *;
        if Chain(lines) {
          ChainGrows(lines, event);
        }
        ghost var r := NextRecord(lines, event);
        ghost var waiting, after := Sys(lines, [pc, Ready(TailHash(lines), r)]), Sys(lines + [Some(r)], [pc, Idle]);
        if TrackedAt(pc) {
          OtherAppends(lines, pc, event);
          Log(ReadTail(1, event), waiting);
          Log(TryAppend(1, NoFault), after);
        }
        lines := lines + [Some(NextRecord(lines, event))];
        i := i + 1;
      }
    }

    /**
     Reads the tail, prepares its successor and appends it unless someone else got there
     first. On success the record follows everything that was in the file. Every change
     is a step of the system, so what holds of all interleavings holds of this file.
     */
    method AppendDurable(event: Event) returns (ok: bool, record: Option<Record<Event>>)
      modifies this
      ensures old(lines) <= lines && (old(Chain(lines)) ==> Chain(lines))
      ensures ok ==> record.Some? && record.value.event == event && lines != [] && lines[|lines| - 1] == record
      ensures ok ==> Chain(lines) && record.value.sequence == |lines|
      ensures old(Tracked()) ==> Tracked() && old(acts) <= acts
    {
      var tail;
      ok, tail := Tail();
      record := None;
      if !ok {
        return;
      }
      var sequence, previous := 1, NoHash;
      if tail.Some? {
        sequence, previous := tail.value.sequence + 1, tail.value.hash;
      }
      var r := Record(sequence, previous, NoHash, event);
      r := r.(hash := RecordHash(r));
      TailRead(lines, sequence, previous);
      assert r == NextRecord(lines, event) && previous == TailHash(lines);
      ghost var pc := Ready(previous, r);
      if Tracked() {
        Log(ReadTail(0, event), Sys(lines, [pc, Idle]));
      }
      hide Chain, IsRun, Next;
      Others(pc);
      ghost var before := lines;
      ok := AppendLocked(previous, r);
      if lines != before {
        AcceptedIsNext(before, previous, r);
        ChainGrows(before, event);
      }
      if old(Tracked()) {
        ghost var fault := if lines == before then NotWritten else if ok then NoFault else Unconfirmed;
        AppendStep(before, lines, pc, fault);
        Log(TryAppend(0, fault), Sys(lines, [Idle, Idle]));
      }
      if ok {
        record := Some(r);
      }
    }
  }

  lemma TailRead(lines: File, sequence: int, previous: Hash<Event>)
    requires Chain(lines)
    requires if lines == [] then sequence == 1 && previous == NoHash
             else lines[|lines| - 1].Some? && sequence == lines[|lines| - 1].value.sequence + 1 && previous == lines[|lines| - 1].value.hash
    ensures sequence == |lines| + 1 && previous == TailHash(lines)
  {
    if lines != [] {
      assert Links(lines, |lines| - 1);
    }
  }

  lemma AcceptedIsNext(file: File, expected: Hash<Event>, r: Record<Event>)
    requires Accepts(file, expected, r)
    ensures r == NextRecord(file, r.event)
  {}

  lemma OtherAppends(file: File, pc: Pc, event: Event)
    ensures var r := NextRecord(file, event);
      var waiting := Sys(file, [pc, Ready(TailHash(file), r)]);
      && Next(Sys(file, [pc, Idle]), ReadTail(1, event), waiting)
      && Next(waiting, TryAppend(1, NoFault), Sys(file + [Some(r)], [pc, Idle]))
  {}

  lemma AppendStep(before: File, after: File, pc: Pc, fault: Fault)
    requires pc.Ready?
    requires if after == before then fault.NotWritten?
             else !fault.NotWritten? && Accepts(before, pc.expected, pc.record) && after == before + [Some(pc.record)]
    ensures Next(Sys(before, [pc, Idle]), TryAppend(0, fault), Sys(after, [Idle, Idle]))
  {}
}
