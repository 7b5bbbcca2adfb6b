/** The queue as the program runs it: `Queue` in `internal/hnieoj/resultqueue/queue.go`.
    Each method changes the fields step by step and is proved against the
    operation of the same name in ResultQueue. */
module QueueObject {
  import opened Basics
  import opened RQ = ResultQueue

  class Queue {
    const lim: Limits
    var records: map<string, Record>
    var reservations: set<string>
    var bytes: int
    var degraded: bool
    var files: map<string, Record>

    ghost function Value(): State
      reads this
    {
      State(records, reservations, bytes, degraded, files)
    }

    /** `Open` on a new directory; `Load` then reads an existing one. */
    constructor (limits: Limits, directory: map<string, Record>)
      ensures lim == WithDefaults(limits) && Positive(lim) && lim.ttl == limits.ttl
      ensures lim.maxRecords == (if limits.maxRecords <= 0 then 256 else limits.maxRecords)
      ensures lim.maxBytes == (if limits.maxBytes <= 0 then 67108864 else limits.maxBytes)
      ensures lim.maxRecord == (if limits.maxRecord <= 0 then 4194304 else limits.maxRecord)
      ensures Value() == State(map[], {}, 0, false, directory)
    {
      lim := WithDefaults(limits);
      records, reservations, bytes, degraded, files := map[], {}, 0, false, directory;
    }

    /** The first loop of `load`: number and size of the files, before any is read. */
    method CheckSizes(entries: seq<DirEntry>) returns (ok: bool)
      requires Positive(lim)
      ensures ok <==> |Filtered(entries)| <= lim.maxRecords && forall e | e in Filtered(entries) :: SizeOk(lim, e)
      ensures ok <==> |Filtered(entries)| <= lim.maxRecords &&
                      forall e | e in entries && !e.isDir && e.isJson :: e.size <= lim.maxRecord + 65536
    {
      assert entries[..|entries|] == entries;
      FilteredMembers(entries);
      var count := 0;
      for i := 0 to |entries|
        invariant count == |Filtered(entries[..i])| <= lim.maxRecords
        invariant forall e | e in Filtered(entries[..i]) :: SizeOk(lim, e)
      {
        FilteredStep(entries, i);
        if !Counts(entries[i]) { continue; }
        if !SizeOk(lim, entries[i]) { return false; }
        count := count + 1;
        if count > lim.maxRecords { return false; }
      }
      ok := true;
    }

    /** The second loop of `load`: contents and the byte budget. */
    method ReadAll(entries: seq<DirEntry>) returns (ok: bool)
      requires Positive(lim) && records == map[] && bytes == 0
      modifies this`records, this`bytes
      ensures ok <==> EventBytes(Filtered(entries)) <= lim.maxBytes && forall e | e in Filtered(entries) :: ContentOk(lim, e)
      ensures ok <==> EventBytes(Filtered(entries)) <= lim.maxBytes &&
                      forall e | e in entries && !e.isDir && e.isJson :: !e.corrupt && |e.record.event| <= lim.maxRecord
      ensures ok ==> records == Loaded(Filtered(entries)) && bytes == EventBytes(Filtered(entries))
    {
      FilteredMembers(entries);
      assert entries[..|entries|] == entries;
      for i := 0 to |entries|
        invariant forall e | e in Filtered(entries[..i]) :: ContentOk(lim, e)
        invariant records == Loaded(Filtered(entries[..i]))
        invariant bytes == EventBytes(Filtered(entries[..i])) <= lim.maxBytes
      {
        FilteredStep(entries, i);
        if !Counts(entries[i]) { continue; }
        if !ContentOk(lim, entries[i]) { return false; }
        records := records[entries[i].record.id := entries[i].record];
        bytes := bytes + |entries[i].record.event|;
        if bytes > lim.maxBytes { return false; }
      }
      ok := true;
    }

    /** `load`: succeeds exactly on directories within the limits, and then holds all their records. */
    method Load(entries: seq<DirEntry>) returns (ok: bool)
      requires Positive(lim) && records == map[] && bytes == 0
      modifies this`records, this`bytes
      ensures ok <==> LoadAccepts(lim, Filtered(entries))
      ensures ok ==> records == Loaded(Filtered(entries)) && bytes == EventBytes(Filtered(entries))
    {
      ok := CheckSizes(entries);
      if ok { ok := ReadAll(entries); }
    }

    method Enqueue(rec: Record, now: int, outcome: WriteOutcome) returns (reply: Reply)
      modifies this
      ensures (Value(), reply) == RQ.Enqueue(lim, old(Value()), rec, now, outcome)
    {
      var r := Stamped(rec, now);
      if r.id == "" { return EmptyId; }
      if |r.event| > lim.maxRecord { return TooLarge; }
      if FileSize(r) > lim.maxRecord + MAX_RECORD_FILE_OVERHEAD { return TooLarge; }
      if degraded { return Refused; }
      if r.id in records {
        if records[r.id].event != r.event { return Conflict; }
        return Accepted;
      }
      if r.id in reservations {
        if AdmissionExceeds(lim, Snapshot(), 1, -1, |r.event|) { return ErrFull; }
      } else if AdmissionExceeds(lim, Snapshot(), 1, 0, |r.event|) {
        return ErrFull;
      }
      files := FileAfter(files, files[r.id := r], outcome);
      if !outcome.Written? {
        degraded := true;
        return StorageFailed;
      }
      reservations := reservations - {r.id};
      records := records[r.id := r];
      bytes := bytes + |r.event|;
      return Accepted;
    }

    function Snapshot(): (q: State)
      reads this
      ensures q == Value()
    {
      State(records, reservations, bytes, degraded, files)
    }

    method Reserve(id: string) returns (reply: Reply)
      modifies this
      ensures (Value(), reply) == RQ.Reserve(lim, old(Value()), id)
    {
      if id == "" { return EmptyId; }
      if degraded { return Refused; }
      if id in records { return Accepted; }
      if id in reservations { return Accepted; }
      if AdmissionExceeds(lim, Snapshot(), 0, 1, 0) { return ErrFull; }
      reservations := reservations + {id};
      return Accepted;
    }

    method Release(id: string)
      modifies this
      ensures Value() == RQ.Release(old(Value()), id)
      ensures Value() == old(Value()).(reservations := old(reservations) - {id})
    {
      reservations := reservations - {id};
    }

    method Ack(id: string, removeFails: bool, syncFails: bool) returns (reply: Reply)
      modifies this
      ensures (Value(), reply) == RQ.Ack(old(Value()), id, removeFails, syncFails)
      ensures reply == Accepted <==> id !in old(records) || (!removeFails && !syncFails)
      ensures id !in old(records) || removeFails ==> Value() == old(Value())
      ensures id in old(records) && !removeFails ==>
                && records == old(records) - {id} && files == old(files) - {id} && reservations == old(reservations)
                && degraded == old(degraded)
                && (old(bytes) >= |old(records)[id].event| ==> bytes == old(bytes) - |old(records)[id].event|)
    {
      if id !in records { return Accepted; }
      if removeFails { return StorageFailed; }
      files := files - {id};
      bytes := NotNegative(bytes - |records[id].event|);
      records := records - {id};
      return if syncFails then StorageFailed else Accepted;
    }

    method Remove(id: string)
      requires id in records
      modifies this
      ensures Value() == Drop(old(Value()), id)
    {
      files := files - {id};
      bytes := bytes - |records[id].event|;
      records := records - {id};
    }

    /** The loop of `Prune`: records are visited in any order; a failing removal ends it early. */
    method PruneLoop(now: int, failing: set<string>)
      returns (removed: nat, ok: bool, ghost victims: set<string>, ghost ops: seq<Op>)
      modifies this
      ensures Value() == ApplyAll(lim, old(Value()), ops)
      ensures records == old(records) - victims && files == old(files) - victims && removed == |victims|
      ensures reservations == old(reservations) && degraded == old(degraded)
      ensures forall id | id in victims ::
                id in old(records) && lim.ttl > 0 && now - old(records)[id].enqueuedAt > lim.ttl && id !in failing
      ensures ok <==> forall id | id in records :: lim.ttl <= 0 || now - records[id].enqueuedAt <= lim.ttl
      ensures !ok ==> exists id :: id in failing && id in records && lim.ttl > 0 && now - records[id].enqueuedAt > lim.ttl
    {
      removed, ok, victims, ops := 0, true, {}, [];
      var todo := records.Keys;
      while todo != {}
        invariant todo <= records.Keys && victims !! records.Keys
        invariant Value() == ApplyAll(lim, old(Value()), ops)
        invariant records == old(records) - victims && files == old(files) - victims && removed == |victims|
        invariant reservations == old(reservations) && degraded == old(degraded)
        invariant forall id | id in victims ::
                    id in old(records) && lim.ttl > 0 && now - old(records)[id].enqueuedAt > lim.ttl && id !in failing
        invariant forall id | id in records && id !in todo :: lim.ttl <= 0 || now - records[id].enqueuedAt <= lim.ttl
        decreases todo
      {
        var id :| id in todo;
        todo := todo - {id};
        if !(lim.ttl > 0 && now - records[id].enqueuedAt > lim.ttl) { continue; }
        if id in failing { return removed, false, victims, ops; }
        PruneOneMore(lim, old(Value()), Value(), ops, id, now);
        Remove(id);
        removed, victims, ops := removed + 1, victims + {id}, ops + [DoPruneOne(id, now)];
      }
    }

    method ClampBytes()
      requires NotNegative(Value().bytes) == Value().bytes
      modifies this`bytes
      ensures Value() == old(Value())
    {
      bytes := NotNegative(bytes);
    }

    /** `Prune`: only outdated records go, each with its file, and a clean pass removes all of them. */
    method Prune(now: int, failing: set<string>, syncFails: bool)
      returns (removed: nat, ok: bool, ghost victims: set<string>)
      requires Inv(lim, Value())
      modifies this
      ensures Inv(lim, Value())
      ensures records == old(records) - victims && files == old(files) - victims && removed == |victims|
      ensures reservations == old(reservations) && degraded == old(degraded)
      ensures forall id | id in victims ::
                id in old(records) && lim.ttl > 0 && now - old(records)[id].enqueuedAt > lim.ttl && id !in failing
      ensures ok ==> forall id | id in records :: lim.ttl <= 0 || now - records[id].enqueuedAt <= lim.ttl
      ensures removed > 0 && syncFails ==> !ok
      ensures !ok ==> (removed > 0 && syncFails) ||
                      exists id :: id in failing && id in records && lim.ttl > 0 && now - records[id].enqueuedAt > lim.ttl
    {
      removed, ok, victims := 0, true, {};
      if lim.ttl <= 0 { return; }
      ghost var ops;
      removed, ok, victims, ops := PruneLoop(now, failing);
      NeverNegative(lim, old(Value()), ops);
      if ok { ClampBytes(); }
      if removed > 0 && syncFails { ok := false; }
    }
  }
}
