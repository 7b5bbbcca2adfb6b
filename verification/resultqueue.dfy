/** The bounded durable queue of terminal results: `internal/hnieoj/resultqueue/queue.go`.
    Admitted attempts reserve a record slot and a worst-case byte budget; a result is
    written to its own file before it is accepted and leaves on acknowledgement or TTL. */
module ResultQueue {
  import opened Basics

  type Bytes = seq<bv8>

  /** `metaBytes` is what the JSON wrapping adds to the event on disk.  Delivery counts are not kept. */
  datatype Record = Record(
    id: string, submissionId: string, judgeTaskId: string, attemptId: string,
    event: Bytes, enqueuedAt: int, metaBytes: nat)

  datatype Limits = Limits(maxRecords: int, maxBytes: int, maxRecord: int, ttl: int)

  const MAX_RECORD_FILE_OVERHEAD := 64 * 1024

  /** `Open` replaces non-positive limits by defaults. */
  function WithDefaults(lim: Limits): Limits {
    Limits(if lim.maxRecords <= 0 then 256 else lim.maxRecords,
           if lim.maxBytes <= 0 then 64 * 1024 * 1024 else lim.maxBytes,
           if lim.maxRecord <= 0 then 4 * 1024 * 1024 else lim.maxRecord,
           lim.ttl)
  }

  predicate Positive(lim: Limits) {
    lim.maxRecords > 0 && lim.maxBytes > 0 && lim.maxRecord > 0
  }

  /** `files` is the directory; a file's name determines its record's id. */
  datatype State = State(
    records: map<string, Record>, reservations: set<string>, bytes: int, degraded: bool,
    files: map<string, Record>)

  datatype Reply = Accepted | EmptyId | TooLarge | Refused | Conflict | ErrFull | StorageFailed

  // ---------- operations ----------

  function FileSize(rec: Record): nat { |rec.event| + rec.metaBytes }

  /** The byte budget of `n` reservations, n times maxRecord (see ChargeIsProduct). */
  function Charge(lim: Limits, n: nat): int {
    if n == 0 then 0 else lim.maxRecord + Charge(lim, n - 1)
  }

  lemma {:induction false} ChargeIsProduct(lim: Limits, n: nat)
    ensures Charge(lim, n) == n * lim.maxRecord
  {
    if n > 0 { ChargeIsProduct(lim, n - 1); }
  }

  /** `fullLocked`. */
  predicate Full(lim: Limits, q: State) {
    || q.degraded
    || |q.records| + |q.reservations| >= lim.maxRecords
    || q.bytes + Charge(lim, |q.reservations|) >= lim.maxBytes
  }

  /** `admissionExceedsLocked`. */
  predicate AdmissionExceeds(lim: Limits, q: State, extraRecords: int, extraReservations: int, extraBytes: int) {
    var reserved := |q.reservations| + extraReservations;
    var counted := if reserved < 0 then 0 else reserved;
    || q.degraded
    || |q.records| + |q.reservations| + extraRecords + extraReservations > lim.maxRecords
    || q.bytes + Charge(lim, counted) + extraBytes > lim.maxBytes
  }

  function Stamped(rec: Record, now: int): Record {
    if rec.enqueuedAt == 0 then rec.(enqueuedAt := now) else rec
  }

  function Enqueue(lim: Limits, q: State, r: Record, now: int, outcome: WriteOutcome): (State, Reply) {
    var rec := Stamped(r, now);
    if rec.id == "" then (q, EmptyId)
    else if |rec.event| > lim.maxRecord || FileSize(rec) > lim.maxRecord + MAX_RECORD_FILE_OVERHEAD then (q, TooLarge)
    else if q.degraded then (q, Refused)
    else if rec.id in q.records then
      (q, if q.records[rec.id].event != rec.event then Conflict else Accepted)
    else if AdmissionExceeds(lim, q, 1, if rec.id in q.reservations then -1 else 0, |rec.event|) then (q, ErrFull)
    else
      var q1 := q.(files := FileAfter(q.files, q.files[rec.id := rec], outcome));
      if !outcome.Written? then (q1.(degraded := true), StorageFailed)
      else (q1.(reservations := q.reservations - {rec.id}, records := q.records[rec.id := rec],
                bytes := q.bytes + |rec.event|), Accepted)
  }

  function Reserve(lim: Limits, q: State, id: string): (State, Reply) {
    if id == "" then (q, EmptyId)
    else if q.degraded then (q, Refused)
    else if id in q.records || id in q.reservations then (q, Accepted)
    else if AdmissionExceeds(lim, q, 0, 1, 0) then (q, ErrFull)
    else (q.(reservations := q.reservations + {id}), Accepted)
  }

  function Release(q: State, id: string): State {
    q.(reservations := q.reservations - {id})
  }

  function NotNegative(n: int): int { if n < 0 then 0 else n }

  /** Dropping one record together with its file, as `Ack` and `Prune` do. */
  function Drop(q: State, id: string): State
    requires id in q.records
  {
    q.(records := q.records - {id}, files := q.files - {id}, bytes := q.bytes - |q.records[id].event|)
  }

  /** `removeFails` is a file removal error other than "not found"; `syncFails` a later directory sync error. */
  function Ack(q: State, id: string, removeFails: bool, syncFails: bool): (State, Reply) {
    if id !in q.records then (q, Accepted)
    else if removeFails then (q, StorageFailed)
    else
      var dropped := Drop(q, id);
      (dropped.(bytes := NotNegative(dropped.bytes)), if syncFails then StorageFailed else Accepted)
  }

  predicate Outdated(lim: Limits, rec: Record, now: int) {
    lim.ttl > 0 && now - rec.enqueuedAt > lim.ttl
  }

  /** One iteration of the loop in `Prune`. */
  function PruneOne(lim: Limits, q: State, id: string, now: int): State {
    if id in q.records && Outdated(lim, q.records[id], now) then Drop(q, id) else q
  }

  // ---------- accounting ----------

  ghost function Pick(m: map<string, Record>): string
    requires m != map[]
    ensures Pick(m) in m
  {
    var k :| k in m; k
  }

  ghost function Sum(m: map<string, Record>): nat {
    if m == map[] then 0 else |m[Pick(m)].event| + Sum(m - {Pick(m)})
  }

  lemma {:induction false} SumRemove(m: map<string, Record>, k: string)
    requires k in m
    ensures Sum(m) == |m[k].event| + Sum(m - {k})
    decreases |m|
  {
    var p := Pick(m);
    if p != k {
      SumRemove(m - {p}, k);
      SumRemove(m - {k}, p);
      assert m - {p} - {k} == m - {k} - {p};
    }
  }

  lemma SumAdd(m: map<string, Record>, k: string, rec: Record)
    requires k !in m
    ensures Sum(m[k := rec]) == Sum(m) + |rec.event|
  {
    SumRemove(m[k := rec], k);
    assert m[k := rec] - {k} == m;
  }

  ghost predicate RecordOk(lim: Limits, id: string, rec: Record) {
    id != "" && rec.id == id && |rec.event| <= lim.maxRecord && FileSize(rec) <= lim.maxRecord + MAX_RECORD_FILE_OVERHEAD
  }

  /** The budgets: what is stored and what is promised never exceeds the limits. */
  ghost predicate Capacity(lim: Limits, q: State) {
    && q.bytes == Sum(q.records)
    && q.records.Keys !! q.reservations
    && |q.records| + |q.reservations| <= lim.maxRecords
    && q.bytes + Charge(lim, |q.reservations|) <= lim.maxBytes
    && (forall id | id in q.records :: RecordOk(lim, id, q.records[id]))
  }

  /** Every record is on disk; the disk holds at most one more, and only after a failed write. */
  ghost predicate Durable(lim: Limits, q: State) {
    && (forall id | id in q.records :: id in q.files && q.files[id] == q.records[id])
    && (forall id | id in q.files :: RecordOk(lim, id, q.files[id]))
    && (!q.degraded ==> q.files == q.records)
    && |q.files| <= |q.records| + 1
    && |q.files| <= lim.maxRecords
    && Sum(q.files) <= lim.maxBytes
  }

  ghost predicate Inv(lim: Limits, q: State) {
    Positive(lim) && Capacity(lim, q) && Durable(lim, q)
  }

  lemma {:induction false} ChargeNonNegative(lim: Limits, n: nat)
    requires Positive(lim)
    ensures Charge(lim, n) >= 0
  {
    if n > 0 { ChargeNonNegative(lim, n - 1); }
  }

  /** The reservations left once `id` has a record: one fewer if it held one. */
  lemma ReservationsAfter(lim: Limits, q: State, id: string)
    requires Positive(lim)
    ensures var left := |q.reservations - {id}|;
            left == |q.reservations| + (if id in q.reservations then -1 else 0) && Charge(lim, left) >= 0
  {
    ChargeNonNegative(lim, |q.reservations - {id}|);
    if id !in q.reservations { assert q.reservations - {id} == q.reservations; }
  }

  lemma AdmitBudget(lim: Limits, q: State, rec: Record)
    requires Positive(lim) && rec.id !in q.records && q.bytes == Sum(q.records)
    requires !AdmissionExceeds(lim, q, 1, if rec.id in q.reservations then -1 else 0, |rec.event|)
    ensures var records := q.records[rec.id := rec];
            && Sum(records) == q.bytes + |rec.event| && |records| == |q.records| + 1
            && |records| + |q.reservations - {rec.id}| <= lim.maxRecords
            && Sum(records) + Charge(lim, |q.reservations - {rec.id}|) <= lim.maxBytes
            && |records| <= lim.maxRecords && Sum(records) <= lim.maxBytes
  {
    SumAdd(q.records, rec.id, rec);
    ReservationsAfter(lim, q, rec.id);
  }

  /** The write path of `Enqueue`: the record replaces its reservation, or takes new room. */
  lemma AdmitInv(lim: Limits, q: State, rec: Record)
    requires Positive(lim) && Capacity(lim, q) && rec.id !in q.records && RecordOk(lim, rec.id, rec)
    requires !AdmissionExceeds(lim, q, 1, if rec.id in q.reservations then -1 else 0, |rec.event|)
    ensures Capacity(lim, q.(reservations := q.reservations - {rec.id}, records := q.records[rec.id := rec],
                             bytes := q.bytes + |rec.event|))
    ensures |q.records[rec.id := rec]| <= lim.maxRecords && Sum(q.records[rec.id := rec]) <= lim.maxBytes
  {
    AdmitBudget(lim, q, rec);
  }

  lemma EnqueueInv(lim: Limits, q: State, r: Record, now: int, outcome: WriteOutcome)
    requires Inv(lim, q)
    ensures Inv(lim, Enqueue(lim, q, r, now, outcome).0)
  {
    var rec := Stamped(r, now);
    var (q', reply) := Enqueue(lim, q, r, now, outcome);
    if q' != q {
      AdmitInv(lim, q, rec);
      assert |q.records[rec.id := rec]| == |q.records| + 1;
    }
  }

  lemma ReserveInv(lim: Limits, q: State, id: string)
    requires Inv(lim, q)
    ensures Inv(lim, Reserve(lim, q, id).0)
  {
    if Reserve(lim, q, id).0 != q {
      PromiseInv(lim, q, id);
    }
  }

  lemma PromiseInv(lim: Limits, q: State, id: string)
    requires Inv(lim, q) && id !in q.records && id !in q.reservations && !AdmissionExceeds(lim, q, 0, 1, 0)
    ensures Inv(lim, q.(reservations := q.reservations + {id}))
  {
    assert |q.reservations + {id}| == |q.reservations| + 1;
  }

  lemma ReleaseInv(lim: Limits, q: State, id: string)
    requires Inv(lim, q)
    ensures Inv(lim, Release(q, id))
  {
    if id in q.reservations {
      assert |q.reservations - {id}| == |q.reservations| - 1;
    } else {
      assert q.reservations - {id} == q.reservations;
    }
  }

  lemma DropInv(lim: Limits, q: State, id: string)
    requires Inv(lim, q) && id in q.records
    ensures Inv(lim, Drop(q, id))
  {
    SumRemove(q.records, id);
    SumRemove(q.files, id);
    assert |q.records - {id}| == |q.records| - 1;
    assert |q.files - {id}| == |q.files| - 1;
  }

  /** The negative-bytes clamp of `Ack` never acts. */
  lemma AckInv(lim: Limits, q: State, id: string, removeFails: bool, syncFails: bool)
    requires Inv(lim, q)
    ensures Inv(lim, Ack(q, id, removeFails, syncFails).0)
    ensures id in q.records && !removeFails ==> Ack(q, id, removeFails, syncFails).0 == Drop(q, id)
  {
    if id in q.records {
      DropInv(lim, q, id);
    }
  }

  // ---------- all operation sequences ----------

  datatype Op =
    | DoEnqueue(rec: Record, now: int, outcome: WriteOutcome)
    | DoReserve(id: string)
    | DoRelease(id: string)
    | DoAck(id: string, removeFails: bool, syncFails: bool)
    | DoPruneOne(id: string, now: int)
    | DoReopen
    | DoRead

  /** A pruning pass is a sequence of single removals, possibly cut short by an error. */
  ghost function Apply(lim: Limits, q: State, op: Op): State {
    match op
    case DoEnqueue(rec, now, o) => Enqueue(lim, q, rec, now, o).0
    case DoReserve(id) => Reserve(lim, q, id).0
    case DoRelease(id) => Release(q, id)
    case DoAck(id, rf, sf) => Ack(q, id, rf, sf).0
    case DoPruneOne(id, now) => PruneOne(lim, q, id, now)
    case DoReopen => Reopened(q)
    case DoRead => q
  }

  /** What `Open` makes of the directory when `load` accepts it. */
  ghost function Reopened(q: State): State {
    State(q.files, {}, Sum(q.files), false, q.files)
  }

  lemma ReopenedInv(lim: Limits, q: State)
    requires Inv(lim, q)
    ensures Inv(lim, Reopened(q))
  {
  }

  lemma ApplyInv(lim: Limits, q: State, op: Op)
    requires Inv(lim, q)
    ensures Inv(lim, Apply(lim, q, op))
  {
    match op
    case DoEnqueue(rec, now, o) => EnqueueInv(lim, q, rec, now, o);
    case DoReserve(id) => ReserveInv(lim, q, id);
    case DoRelease(id) => ReleaseInv(lim, q, id);
    case DoAck(id, rf, sf) => AckInv(lim, q, id, rf, sf);
    case DoPruneOne(id, now) => if id in q.records { DropInv(lim, q, id); }
    case DoReopen => ReopenedInv(lim, q);
    case DoRead =>
  }

  ghost function ApplyAll(lim: Limits, q: State, ops: seq<Op>): State {
    if ops == [] then q else Apply(lim, ApplyAll(lim, q, ops[..|ops| - 1]), ops[|ops| - 1])
  }

  lemma PruneOneMore(lim: Limits, q: State, q': State, ops: seq<Op>, id: string, now: int)
    requires q' == ApplyAll(lim, q, ops) && id in q'.records && lim.ttl > 0 && now - q'.records[id].enqueuedAt > lim.ttl
    ensures ApplyAll(lim, q, ops + [DoPruneOne(id, now)]) == Drop(q', id)
  {
    assert (ops + [DoPruneOne(id, now)])[..|ops|] == ops;
  }

  const EMPTY := State(map[], {}, 0, false, map[])

  /** The capacity and durability invariants hold after every sequence of operations,
      failed writes and reopenings included. */
  lemma {:induction false} AlwaysWithinLimits(lim: Limits, q: State, ops: seq<Op>)
    requires Inv(lim, q)
    ensures Inv(lim, ApplyAll(lim, q, ops))
  {
    if ops != [] {
      AlwaysWithinLimits(lim, q, ops[..|ops| - 1]);
      ApplyInv(lim, ApplyAll(lim, q, ops[..|ops| - 1]), ops[|ops| - 1]);
    }
  }

  /** The clamp at the end of `Prune` never acts. */
  lemma NeverNegative(lim: Limits, q: State, ops: seq<Op>)
    requires Inv(lim, q)
    ensures Inv(lim, ApplyAll(lim, q, ops)) && NotNegative(ApplyAll(lim, q, ops).bytes) == ApplyAll(lim, q, ops).bytes
  {
    AlwaysWithinLimits(lim, q, ops);
  }

  lemma EmptyWithinLimits(lim: Limits)
    requires Positive(lim)
    ensures Inv(lim, EMPTY)
  {
  }

  /** A full queue refuses every reservation for an id it does not already hold. */
  lemma FullRefusesReserve(lim: Limits, q: State, id: string)
    requires Positive(lim) && Full(lim, q) && id !in q.records && id !in q.reservations
    ensures Reserve(lim, q, id).0 == q && Reserve(lim, q, id).1 != Accepted
  {
  }

  /** The converse fails: a queue that is not full refuses a fresh reservation exactly when what is
      left of the byte budget is positive but smaller than one worst-case record. */
  lemma NotFullYetRefused(lim: Limits, q: State, id: string)
    requires Positive(lim) && !Full(lim, q) && id != "" && id !in q.records && id !in q.reservations
    ensures var left := lim.maxBytes - q.bytes - Charge(lim, |q.reservations|);
            left > 0 && (Reserve(lim, q, id).1 != Accepted <==> left < lim.maxRecord)
  {
    assert Charge(lim, |q.reservations| + 1) == lim.maxRecord + Charge(lim, |q.reservations|);
  }

  /** A reserved id always finds room: within the size limits only the disk decides. */
  lemma ReservedNeverFull(lim: Limits, q: State, r: Record, now: int, outcome: WriteOutcome)
    requires Inv(lim, q) && r.id in q.reservations
    ensures Enqueue(lim, q, r, now, outcome).1 != ErrFull
    ensures !q.degraded && RecordOk(lim, r.id, r) ==>
              Enqueue(lim, q, r, now, outcome).1 == if outcome.Written? then Accepted else StorageFailed
  {
    ReservationsAfter(lim, q, r.id);
    assert |q.reservations| > 0;
  }

  /** An accepted result is on disk with exactly its bytes, and a new one exactly as reported. */
  lemma AcceptedIsOnDisk(lim: Limits, q: State, r: Record, now: int, outcome: WriteOutcome)
    requires Inv(lim, q) && Enqueue(lim, q, r, now, outcome).1 == Accepted
    ensures var q' := Enqueue(lim, q, r, now, outcome).0;
            && r.id in q'.records && r.id in q'.files && q'.files[r.id].event == r.event
            && (r.id !in q.records ==> q'.files[r.id] == r.(enqueuedAt := q'.files[r.id].enqueuedAt))
            && (r.id !in q.records ==> q'.files[r.id].enqueuedAt == if r.enqueuedAt != 0 then r.enqueuedAt else now)
  {
  }

  // ---------- every reply, in numbers ----------

  /** A result small enough to be stored at all. */
  ghost predicate Fits(lim: Limits, r: Record) {
    r.id != "" && |r.event| <= lim.maxRecord && |r.event| + r.metaBytes <= lim.maxRecord + 65536
  }

  /** When each reply is given.  A repeated report with equal content is accepted whatever room is left; an id without a
      reservation needs a free record slot and the bytes of its event beside all reserved budgets. */
  lemma EnqueueReplies(lim: Limits, q: State, r: Record, now: int, outcome: WriteOutcome)
    requires Inv(lim, q)
    ensures var reply := Enqueue(lim, q, r, now, outcome).1;
            var open := Fits(lim, r) && !q.degraded;
            var room := r.id in q.reservations ||
                        (|q.records| + |q.reservations| + 1 <= lim.maxRecords &&
                         q.bytes + |q.reservations| * lim.maxRecord + |r.event| <= lim.maxBytes);
            && (reply == EmptyId <==> r.id == "")
            && (reply == TooLarge <==> r.id != "" && !Fits(lim, r))
            && (reply == Refused <==> Fits(lim, r) && q.degraded)
            && (reply == Conflict <==> open && r.id in q.records && q.records[r.id].event != r.event)
            && (reply == ErrFull <==> open && r.id !in q.records && !room)
            && (reply == StorageFailed <==> open && r.id !in q.records && room && !outcome.Written?)
            && (reply == Accepted <==> open && if r.id in q.records then q.records[r.id].event == r.event else room && outcome.Written?)
  {
    ChargeIsProduct(lim, |q.reservations|);
    if r.id in q.reservations {
      if Fits(lim, r) && !q.degraded { ReservedNeverFull(lim, q, r, now, outcome); }
    }
  }

  /** What each reply leaves behind. */
  lemma EnqueueEffect(lim: Limits, q: State, r: Record, now: int, outcome: WriteOutcome)
    ensures var (q', reply) := Enqueue(lim, q, r, now, outcome);
            var stored := r.(enqueuedAt := if r.enqueuedAt == 0 then now else r.enqueuedAt);
            && (reply != Accepted && reply != StorageFailed ==> q' == q)
            && (reply == StorageFailed ==>
                  q' == q.(degraded := true, files := if outcome == FailedBefore then q.files else q.files[r.id := stored]))
            && (reply == Accepted && r.id in q.records ==> q' == q)
            && (reply == Accepted && r.id !in q.records ==>
                  q' == q.(records := q.records[r.id := stored], files := q.files[r.id := stored],
                           reservations := q.reservations - {r.id}, bytes := q.bytes + |r.event|))
  {
  }

  /** Reserving: an id that has a record or a reservation is accepted as it is, a new one exactly if a record slot and one
      more worst-case budget are free. */
  lemma ReserveReplies(lim: Limits, q: State, id: string)
    ensures var (q', reply) := Reserve(lim, q, id);
            var held := id in q.records || id in q.reservations;
            var room := |q.records| + |q.reservations| + 1 <= lim.maxRecords &&
                        q.bytes + (|q.reservations| + 1) * lim.maxRecord <= lim.maxBytes;
            && (reply == EmptyId <==> id == "")
            && (reply == Refused <==> id != "" && q.degraded)
            && (reply == ErrFull <==> id != "" && !q.degraded && !held && !room)
            && (reply == Accepted <==> id != "" && !q.degraded && (held || room))
            && q' == if reply == Accepted && !held then q.(reservations := q.reservations + {id}) else q
  {
    ChargeIsProduct(lim, |q.reservations| + 1);
  }

  /** `Full`, in numbers. */
  lemma FullMeans(lim: Limits, q: State)
    ensures Full(lim, q) <==>
              || q.degraded || |q.records| + |q.reservations| >= lim.maxRecords
              || q.bytes + |q.reservations| * lim.maxRecord >= lim.maxBytes
  {
    ChargeIsProduct(lim, |q.reservations|);
  }

  // ---------- reopening ----------

  /** A directory entry: directories and files not ending in ".json" are skipped. */
  datatype DirEntry = DirEntry(isDir: bool, isJson: bool, size: nat, corrupt: bool, record: Record)

  predicate Counts(e: DirEntry) { !e.isDir && e.isJson }

  function Filtered(entries: seq<DirEntry>): seq<DirEntry> {
    if entries == [] then []
    else
      var n := |entries| - 1;
      Filtered(entries[..n]) + if Counts(entries[n]) then [entries[n]] else []
  }

  /** Records by id; a later file with the same id replaces an earlier one. */
  function Loaded(es: seq<DirEntry>): map<string, Record> {
    if es == [] then map[]
    else
      var rec := es[|es| - 1].record;
      Loaded(es[..|es| - 1])[rec.id := rec]
  }

  function EventBytes(es: seq<DirEntry>): nat {
    if es == [] then 0 else EventBytes(es[..|es| - 1]) + |es[|es| - 1].record.event|
  }

  ghost predicate DistinctFiles(es: seq<DirEntry>) {
    forall i, j | 0 <= i < j < |es| :: es[i].record.id != es[j].record.id
  }

  /** `es` shows each file of the directory once, as written. */
  ghost predicate Lists(es: seq<DirEntry>, files: map<string, Record>) {
    && DistinctFiles(es) && Loaded(es) == files
    && forall e | e in es :: !e.corrupt && e.size == FileSize(e.record)
  }

  lemma {:induction false} LoadedIds(es: seq<DirEntry>, id: string)
    requires id in Loaded(es)
    ensures exists i :: 0 <= i < |es| && es[i].record.id == id
  {
    var n := |es| - 1;
    if es[n].record.id != id {
      LoadedIds(es[..n], id);
      var i :| 0 <= i < n && es[..n][i].record.id == id;
      assert es[i].record.id == id;
    }
  }

  /** With distinct ids nothing is replaced: every record is kept, and all bytes are counted. */
  lemma {:induction false} LoadedExactly(es: seq<DirEntry>)
    requires DistinctFiles(es)
    ensures |Loaded(es)| == |es| && Sum(Loaded(es)) == EventBytes(es)
    ensures forall e | e in es :: e.record.id in Loaded(es) && Loaded(es)[e.record.id] == e.record
  {
    if es != [] {
      var n := |es| - 1;
      var rec := es[n].record;
      LoadedExactly(es[..n]);
      if rec.id in Loaded(es[..n]) {
        LoadedIds(es[..n], rec.id);
        assert false;
      }
      SumAdd(Loaded(es[..n]), rec.id, rec);
      forall e | e in es ensures e.record.id in Loaded(es) && Loaded(es)[e.record.id] == e.record {
        assert e == es[n] || e in es[..n];
      }
    }
  }

  /** The checks of `load`, on the entries it does not skip. */
  ghost predicate LoadAccepts(lim: Limits, es: seq<DirEntry>) {
    && |es| <= lim.maxRecords
    && (forall e | e in es :: SizeOk(lim, e) && ContentOk(lim, e))
    && EventBytes(es) <= lim.maxBytes
  }

  predicate SizeOk(lim: Limits, e: DirEntry) { e.size <= lim.maxRecord + MAX_RECORD_FILE_OVERHEAD }

  predicate ContentOk(lim: Limits, e: DirEntry) { !e.corrupt && |e.record.event| <= lim.maxRecord }

  /** What loading one more directory entry adds. */
  lemma LoadOneMore(entries: seq<DirEntry>, e: DirEntry)
    ensures Filtered([]) == [] && Loaded([]) == map[] && EventBytes([]) == 0
    ensures var before, after := Filtered(entries), Filtered(entries + [e]);
            if e.isDir || !e.isJson then after == before
            else
              && after == before + [e] && EventBytes(after) == EventBytes(before) + |e.record.event|
              && Loaded(after) == Loaded(before)[e.record.id := e.record]
  {
    assert (entries + [e])[..|entries|] == entries;
    if !e.isDir && e.isJson { assert (Filtered(entries) + [e])[..|Filtered(entries)|] == Filtered(entries); }
  }

  /** The directories `load` accepts, in numbers. */
  lemma LoadAcceptsMeans(lim: Limits, entries: seq<DirEntry>)
    ensures LoadAccepts(lim, Filtered(entries)) <==>
              && |Filtered(entries)| <= lim.maxRecords && EventBytes(Filtered(entries)) <= lim.maxBytes
              && forall e | e in entries && !e.isDir && e.isJson ::
                   e.size <= lim.maxRecord + 65536 && !e.corrupt && |e.record.event| <= lim.maxRecord
  {
    FilteredMembers(entries);
  }

  /** Reopening with the same limits always succeeds, on any listing of the directory: it gives back
      every record, and at most one more, which only a failed write can have left. */
  lemma ReopenSucceeds(lim: Limits, q: State, entries: seq<DirEntry>)
    requires Inv(lim, q) && Lists(Filtered(entries), q.files)
    ensures var es := Filtered(entries);
            && LoadAccepts(lim, es) && EventBytes(es) == Sum(q.files)
            && |Loaded(es)| <= |q.records| + 1 && (!q.degraded ==> Loaded(es) == q.records)
            && forall id | id in q.records :: id in Loaded(es) && Loaded(es)[id] == q.records[id]
  {
    var es := Filtered(entries);
    LoadedExactly(es);
    forall e | e in es ensures SizeOk(lim, e) && ContentOk(lim, e) {
      assert RecordOk(lim, e.record.id, q.files[e.record.id]);
    }
  }

  lemma {:induction false} FilteredMembers(entries: seq<DirEntry>)
    ensures forall e :: e in Filtered(entries) <==> e in entries && Counts(e)
  {
    if entries != [] {
      var n := |entries| - 1;
      FilteredMembers(entries[..n]);
      assert entries == entries[..n] + [entries[n]];
    }
  }

  lemma {:induction false} FilteredGrows(entries: seq<DirEntry>, n: nat)
    requires n <= |entries|
    ensures Filtered(entries[..n]) <= Filtered(entries)
    decreases |entries| - n
  {
    if n == |entries| {
      assert entries[..n] == entries;
    } else {
      assert entries[..n + 1][..n] == entries[..n];
      FilteredGrows(entries, n + 1);
    }
  }

  lemma {:induction false} EventBytesGrow(es: seq<DirEntry>, n: nat)
    requires n <= |es|
    ensures EventBytes(es[..n]) <= EventBytes(es)
    decreases |es| - n
  {
    if n == |es| {
      assert es[..n] == es;
    } else {
      assert es[..n + 1][..n] == es[..n];
      EventBytesGrow(es, n + 1);
    }
  }

  /** One more directory entry, seen from the whole listing. */
  lemma FilteredStep(entries: seq<DirEntry>, i: nat)
    requires i < |entries|
    ensures var es := Filtered(entries[..i + 1]);
            && es == (if Counts(entries[i]) then Filtered(entries[..i]) + [entries[i]] else Filtered(entries[..i]))
            && |es| <= |Filtered(entries)| && EventBytes(es) <= EventBytes(Filtered(entries))
            && (Counts(entries[i]) ==>
                  && Loaded(es) == Loaded(Filtered(entries[..i]))[entries[i].record.id := entries[i].record]
                  && EventBytes(es) == EventBytes(Filtered(entries[..i])) + |entries[i].record.event|)
    ensures Counts(entries[i]) ==> entries[i] in Filtered(entries)
  {
    assert entries[..i + 1][..i] == entries[..i];
    var es := Filtered(entries[..i + 1]);
    if Counts(entries[i]) { assert es[..|es| - 1] == Filtered(entries[..i]); }
    FilteredGrows(entries, i + 1);
    assert Filtered(entries)[..|es|] == es;
    EventBytesGrow(Filtered(entries), |es|);
    FilteredMembers(entries);
  }
}
