/**
 The lease file as one process sees it: the durable contents, and the record the
 process believes to be there. A save replaces the contents only by a record the
 current one accepts, and only while the two agree.
 */
module LeaseFiles {
  import opened Options
  import opened LeaseRecords

  class LeaseFile {
    /** What lease.json decodes to; `None` when it is missing, torn or fails its digest. */
    var disk: Option<Record>
    var record: Record

    ghost predicate InSync()
      reads this
    {
      disk == Some(record) && Valid(record)
    }

    /** `createLeaseFile`: the first write of a validated record. */
    constructor (first: Record)
      requires Valid(first)
      ensures InSync() && record == first
    {
      disk := Some(first);
      record := first;
    }

    method Read() returns (contents: Option<Record>)
      ensures contents == if disk.Some? && Valid(disk.value) then disk else None
    {
      contents := None;
      if disk.Some? {
        var ok := Validate(disk.value);
        if ok {
          contents := disk;
        }
      }
    }

    /** Write beside, rename, sync. Without `calm` the rename may not happen, or happen and not be confirmed. */
    method Write(next: Record, calm: bool) returns (confirmed: bool)
      modifies this`disk
      ensures disk == old(disk) || disk == Some(next)
      ensures confirmed ==> disk == Some(next)
      ensures calm ==> confirmed
    {
      var renamed: bool := *;
      var synced: bool := *;
      confirmed := calm || (renamed && synced);
      if calm || renamed {
        disk := Some(next);
      }
    }

    method Save(next: Record, calm: bool) returns (ok: bool)
      modifies this
      ensures ok ==> old(InSync()) && Accepts(old(record), next)
      ensures ok ==> InSync() && record == next
      ensures !ok ==> record == old(record)
      ensures !ok && disk != old(disk) ==>
        old(InSync()) && Accepts(old(record), next) && disk == Some(next)
      ensures calm && old(InSync()) && Accepts(old(record), next) ==> ok
    {
      var current := Read();
      if current.None? || current.value != record || !Transition(current.value.state, next.state) {
        return false;
      }
      var valid := Validate(next);
      if !SameAllocation(current.value, next) || !valid || !ResourcesAdvance(current.value, next) {
        return false;
      }
      ok := Write(next, calm);
      if ok {
        record := next;
      }
    }

    /** `openLeaseFile`: a new process takes the stored record for its own. */
    method Open() returns (ok: bool)
      modifies this`record
      ensures ok <==> disk.Some? && Valid(disk.value)
      ensures if ok then InSync() else record == old(record)
    {
      var current := Read();
      ok := current.Some?;
      if ok {
        record := current.value;
      }
    }
  }
}
