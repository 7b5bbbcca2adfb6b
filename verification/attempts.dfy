/** The life of an attempt inside the node, as a state machine over the registry, the worker
    channel, the running tasks, the result queue and its directory, and the session:
    `internal/hnieoj/wss/client.go`, `internal/hnieoj/wss/run.go`, with
    `internal/hnieoj/tasks/registry.go` and `internal/hnieoj/worker/worker.go`.

    Whatever the program does in more than one critical section is more than one step, so that
    other threads can run in between: admission (checks, reservation, start), a completion and
    its release, reading the epoch for a renewal and writing it, checking for drain and sending READY. */
module Attempts {
  import opened Basics
  import opened Tasks
  import RQ = ResultQueue

  datatype Config = Config(lim: RQ.Limits, concurrency: int, doneTTL: int)

  ghost predicate ConfigOk(c: Config) {
    RQ.Positive(c.lim) && c.concurrency > 0 && c.doneTTL > 0
  }

  /** Offline; authenticated; waiting for RESUME_RESULT with the listed keys; ready. */
  datatype Session = Offline | Authenticated | Resuming(listed: set<string>) | Ready

  /** How far the reader is inside `handleAssign`. */
  datatype Admission = Idle | Checked(who: Triple, lease: int) | Secured(who: Triple, lease: int)

  /** Where in-flight attempts are: queued, taken by a worker, inside the handler. */
  datatype Work = Work(
    queued: seq<string>, claimed: multiset<string>, executing: multiset<string>, renewing: map<string, Renewing>)

  /** A LEASE_RENEWED answer of an executing attempt whose epoch has been read and which is not yet written to the
      registry. */
  datatype Renewing = Renewing(lease: int, epoch: int)

  /** The session and the drain flags; `readying` says that `sendReady` has passed its drain check and has not
      sent yet. */
  datatype Link = Link(
    session: Session, epoch: int, quota: int, localDraining: bool, remoteDraining: bool, readying: bool)

  /** `completedAt` and `hadRecord` record history: the last completion of each key in this
      process, and the keys that have had a durable record. */
  datatype Client = Client(
    reg: Registry, work: Work, releasing: map<string, int>, admission: Admission, link: Link, q: RQ.State, now: int,
    completedAt: map<string, int>, hadRecord: set<string>)

  const NO_WORK := Work([], multiset{}, multiset{}, map[])
  const NO_LINK := Link(Offline, 0, 0, false, false, false)

  predicate Draining(s: Client) { s.link.localDraining || s.link.remoteDraining }

  /** `approvedSlots`. */
  function ApprovedSlots(c: Config, s: Client): int {
    var approved := if s.link.quota <= 0 || s.link.quota > c.concurrency then c.concurrency else s.link.quota;
    if approved <= 0 then 1 else approved
  }

  /** `availableSlots`. */
  function AvailableSlots(c: Config, s: Client): (n: int)
    ensures n >= 0
    ensures n > 0 ==> |s.reg.entries| + n <= ApprovedSlots(c, s) && !RQ.Full(c.lim, s.q)
  {
    var slots := ApprovedSlots(c, s) - |s.reg.entries|;
    if RQ.Full(c.lim, s.q) then 0 else if slots < 0 then 0 else slots
  }

  // ---------- RESUME_RESULT ----------

  datatype ResumedTask = ResumedTask(who: Triple, lease: int, completed: bool)
  datatype ResumeResult = ResumeResult(resumed: seq<ResumedTask>, rejected: seq<Triple>)

  /** Later duplicates replace earlier ones; items with an empty part are skipped. */
  function ResumedMap(tasks: seq<ResumedTask>): map<string, ResumedTask> {
    if tasks == [] then map[]
    else
      var last := tasks[|tasks| - 1];
      var front := ResumedMap(tasks[..|tasks| - 1]);
      if AllPresent(last.who) then front[TaskKey(last.who) := last] else front
  }

  function RejectedKeys(rejected: seq<Triple>): set<string> {
    set t | t in rejected :: TaskKey(t)
  }

  /** The server approves going on: resumed, not rejected, not completed, with a lease in the future. */
  predicate Approved(k: string, listed: set<string>, r: ResumeResult, now: int) {
    var m := ResumedMap(r.resumed);
    && k in listed && k in m && k !in RejectedKeys(r.rejected)
    && !m[k].completed && m[k].lease > 0 && m[k].lease > now
  }

  function AfterResume(k: string, e: Entry, listed: set<string>, r: ResumeResult, epoch: int, now: int): Entry {
    if Approved(k, listed, r, now) then e.(lease := ResumedMap(r.resumed)[k].lease, epoch := epoch)
    else if k in listed || k in RejectedKeys(r.rejected) then e.(cancelled := true)
    else e
  }

  function ResumeAll(reg: Registry, listed: set<string>, r: ResumeResult, epoch: int, now: int): Registry {
    reg.(entries := map k | k in reg.entries :: AfterResume(k, reg.entries[k], listed, r, epoch, now))
  }

  // ---------- steps ----------

  datatype NodeStatus = Inactive | DrainingStatus | ActiveStatus(draining: bool) | UnknownStatus

  datatype Step =
    // the connection
    | Authenticate(newEpoch: int, newQuota: int)
    | Refresh(replyEpoch: int, newQuota: int)
    | ListAttempts
    | ReceiveResume(result: ResumeResult, serverNow: int)
    | Disconnect
    // server messages
    | Assign(who: Triple, lease: int, modeAllowed: bool)
    | AssignReserve
    | AssignStart(toChannel: bool)
    | CancelTask(target: Triple)
    | NodeState(status: NodeStatus)
    | NodeDrain
    | ReadRenewal(key: string, lease: int)
    | WriteRenewal(key: string)
    // the node itself
    | SetDraining
    | CheckReady
    | SendReady
    | Claim
    | StartHandler(key: string)
    | CompleteTask(key: string)
    | RunRelease(key: string)
    | Report(who: Triple, event: RQ.Bytes, metaBytes: nat, at: int, outcome: WriteOutcome)
    | ReceiveAck(rec: RQ.Record, ack: Triple, removeFails: bool, syncFails: bool)
    | PruneResult(id: string, at: int)
    | Tick(time: int)
    | CrashAndReopen

  function RecordKey(rec: RQ.Record): Triple {
    Triple(rec.submissionId, rec.judgeTaskId, rec.attemptId)
  }

  function ResultRecord(who: Triple, event: RQ.Bytes, metaBytes: nat, at: int): RQ.Record {
    RQ.Record(TaskKey(who), who.submission, who.task, who.attempt, event, at, metaBytes)
  }

  predicate Enabled(c: Config, s: Client, step: Step) {
    match step
    // the next session starts only after the reader and the loops of the previous one have returned
    case Authenticate(e, _) => s.link.session.Offline? && s.admission.Idle? && !s.link.readying && e > 0
    case Refresh(_, _) => s.link.session.Ready?
    case ListAttempts => s.link.session.Authenticated?
    case ReceiveResume(_, _) => s.link.session.Resuming?
    case Assign(_, _, _) => s.link.session.Ready? && s.admission.Idle?
    case AssignReserve => s.admission.Checked?
    case AssignStart(toChannel) =>
      // the channel send is ready while there is room; otherwise a closed session or the default branch
      s.admission.Secured? && if toChannel then |s.work.queued| < c.concurrency + 2
                              else s.link.session.Offline? || |s.work.queued| >= c.concurrency + 2
    case CheckReady => s.link.session.Ready? && !Draining(s) && !s.link.readying
    case SendReady => s.link.readying
    // one renewal loop per execution
    case ReadRenewal(k, _) => k in s.work.executing && k !in s.work.renewing
    case WriteRenewal(k) => k in s.work.renewing
    case Claim => s.work.queued != [] && |s.work.claimed| + |s.work.executing| < c.concurrency
    case StartHandler(k) => k in s.work.claimed && k in s.reg.entries && !s.reg.entries[k].cancelled
    // a worker waits for its renewal loop before it completes the task
    case CompleteTask(k) => (k in s.work.claimed || k in s.work.executing) && k !in s.work.renewing
    case RunRelease(k) => k in s.releasing
    case ReceiveAck(rec, _, _, _) => rec.id == TaskKey(RecordKey(rec))
    // the release callback of a completion runs within doneTTL
    case Tick(t) => t >= s.now && forall k | k in s.releasing :: t - s.releasing[k] <= c.doneTTL
    case _ => true
  }

  function Finish(c: Config, s: Client, key: string): Client {
    s.(reg := Complete(s.reg, key, s.now, c.doneTTL), releasing := s.releasing[key := s.now],
       completedAt := s.completedAt[key := s.now])
  }

  function Closed(s: Client): Client {
    s.(link := s.link.(session := Offline))
  }

  /** The checks at the head of `handleAssign`. */
  function CheckAssign(c: Config, s: Client, who: Triple, lease: int, modeAllowed: bool): Client {
    if !AllPresent(who) || lease <= 0 then s
    else
      var s1 := s.(reg := s.reg.(done := Pruned(s.reg.done, s.now, c.doneTTL)));
      if Has(s.reg, TaskKey(who), s.now, c.doneTTL) || Draining(s) then s1
      else if !modeAllowed || |s.reg.entries| >= ApprovedSlots(c, s) then Closed(s1)
      else s1.(admission := Checked(who, lease))
  }

  function ReserveAssign(c: Config, s: Client): Client
    requires s.admission.Checked?
  {
    var (q, reply) := RQ.Reserve(c.lim, s.q, TaskKey(s.admission.who));
    if reply != RQ.Accepted then s.(admission := Idle)
    else s.(q := q, admission := Secured(s.admission.who, s.admission.lease))
  }

  function StartAssign(c: Config, s: Client, toChannel: bool): Client
    requires s.admission.Secured?
  {
    var key := TaskKey(s.admission.who);
    var started := Start(s.reg, Entry(s.admission.who, s.admission.lease, s.link.epoch, false));
    var s1 := s.(admission := Idle);
    if started.None? then s1.(q := RQ.Release(s.q, key))
    else if toChannel then
      s1.(reg := started.value, work := s.work.(queued := s.work.queued + [key]))
    else
      Finish(c, Closed(s1.(reg := started.value)), key)
  }

  function ApplyNodeState(s: Client, status: NodeStatus): Client {
    match status
    case Inactive => s.(reg := CancelAll(s.reg))
    case DrainingStatus => s.(link := s.link.(remoteDraining := true))
    case ActiveStatus(d) => s.(link := s.link.(remoteDraining := d))
    case UnknownStatus => s
  }

  function ReportResult(c: Config, s: Client, rec: RQ.Record, outcome: WriteOutcome): Client {
    var (q, reply) := RQ.Enqueue(c.lim, s.q, rec, s.now, outcome);
    s.(q := q, hadRecord := if reply == RQ.Accepted then s.hadRecord + {rec.id} else s.hadRecord)
  }

  ghost function Next(c: Config, s: Client, step: Step): Client
    requires Enabled(c, s, step)
  {
    match step
    case Authenticate(e, quota) => s.(link := s.link.(session := Authenticated, epoch := e, quota := quota))
    // a refresh that names another epoch is an error and changes nothing
    case Refresh(e, quota) => if e <= 0 || (s.link.epoch != 0 && e != s.link.epoch) then s else s.(link := s.link.(quota := quota))
    case ListAttempts => s.(link := s.link.(session := Resuming(s.reg.entries.Keys + s.q.records.Keys)))
    case ReceiveResume(r, t) =>
      s.(link := s.link.(session := Ready), reg := ResumeAll(s.reg, s.link.session.listed, r, s.link.epoch, t))
    case Disconnect => Closed(s)
    case Assign(who, lease, ok) => CheckAssign(c, s, who, lease, ok)
    case AssignReserve => ReserveAssign(c, s)
    case AssignStart(toChannel) => StartAssign(c, s, toChannel)
    case CancelTask(t) => s.(reg := Cancel(s.reg, TaskKey(t)))
    case NodeState(status) => ApplyNodeState(s, status)
    case NodeDrain => s.(link := s.link.(remoteDraining := true))
    case ReadRenewal(k, lease) => s.(work := s.work.(renewing := s.work.renewing[k := Renewing(lease, s.link.epoch)]))
    case WriteRenewal(k) =>
      s.(reg := Resume(s.reg, k, s.work.renewing[k].lease, s.work.renewing[k].epoch),
         work := s.work.(renewing := s.work.renewing - {k}))
    case SetDraining => s.(link := s.link.(localDraining := true))
    case CheckReady => s.(link := s.link.(readying := true))
    case SendReady => s.(link := s.link.(readying := false))
    case Claim =>
      s.(work := s.work.(queued := s.work.queued[1..], claimed := s.work.claimed + multiset{s.work.queued[0]}))
    case StartHandler(k) =>
      s.(work := s.work.(claimed := s.work.claimed - multiset{k}, executing := s.work.executing + multiset{k}))
    case CompleteTask(k) => Finish(c, s.(work := Unplace(s.work, k)), k)
    case RunRelease(k) => s.(q := RQ.Release(s.q, k), releasing := s.releasing - {k})
    case Report(who, event, meta, at, o) => ReportResult(c, s, ResultRecord(who, event, meta, at), o)
    case ReceiveAck(rec, ack, rf, sf) => if ack == RecordKey(rec) then s.(q := RQ.Ack(s.q, rec.id, rf, sf).0) else s
    case PruneResult(id, at) => s.(q := RQ.PruneOne(c.lim, s.q, id, at))
    case Tick(t) => s.(now := t)
    case CrashAndReopen =>
      Client(Registry(map[], map[]), NO_WORK, map[], Idle, NO_LINK, RQ.Reopened(s.q), s.now, map[], s.hadRecord + s.q.files.Keys)
  }

  // ---------- what the steps decide, in numbers ----------

  /** The checks of `handleAssign` on a usable message to a ready node.  A repeat of a known attempt and anything sent
      while draining change nothing; otherwise the mode and the number of attempts against the server's quota decide
      between admission and a closed session. */
  lemma CheckAssignDecides(c: Config, s: Client, who: Triple, lease: int, modeAllowed: bool)
    requires s.link.session.Ready? && s.admission.Idle? && c.concurrency > 0
    requires who.submission != "" && who.task != "" && who.attempt != "" && lease > 0
    ensures var s' := CheckAssign(c, s, who, lease, modeAllowed);
            var k := TaskKey(who);
            var known := k in s.reg.entries || (k in s.reg.done && s.now - s.reg.done[k] <= c.doneTTL);
            var cap := if 0 < s.link.quota <= c.concurrency then s.link.quota else c.concurrency;
            && s'.reg.entries == s.reg.entries && s'.work == s.work && s'.q == s.q
            && if known || s.link.localDraining || s.link.remoteDraining then s'.link == s.link && s'.admission == Idle
               else if modeAllowed && |s.reg.entries| < cap then s'.link == s.link && s'.admission == Checked(who, lease)
               else s'.link == s.link.(session := Offline) && s'.admission == Idle
  {
  }

  /** A message without all three ids or without a lease is ignored. */
  lemma UnusableAssignIgnored(c: Config, s: Client, who: Triple, lease: int, modeAllowed: bool)
    requires who.submission == "" || who.task == "" || who.attempt == "" || lease <= 0
    ensures CheckAssign(c, s, who, lease, modeAllowed) == s
  {
  }

  /** The worker channel is first in, first out. */
  lemma ChannelOrder(c: Config, s: Client)
    ensures s.admission.Secured? && TaskKey(s.admission.who) !in s.reg.entries ==>
              StartAssign(c, s, true).work == s.work.(queued := s.work.queued + [TaskKey(s.admission.who)])
    ensures Enabled(c, s, Claim) ==>
              var w := Next(c, s, Claim).work;
              [s.work.queued[0]] + w.queued == s.work.queued && w.claimed == s.work.claimed + multiset{s.work.queued[0]}
  {
  }

  /** The slots a READY offers: none while the result queue is full, else what the quota leaves. */
  lemma AvailableSlotsMeans(c: Config, s: Client)
    requires c.concurrency > 0
    ensures var cap := if 0 < s.link.quota <= c.concurrency then s.link.quota else c.concurrency;
            var full := s.q.degraded || |s.q.records| + |s.q.reservations| >= c.lim.maxRecords ||
                        s.q.bytes + |s.q.reservations| * c.lim.maxRecord >= c.lim.maxBytes;
            AvailableSlots(c, s) == if full || |s.reg.entries| >= cap then 0 else cap - |s.reg.entries|
  {
    RQ.FullMeans(c.lim, s.q);
  }

  /** NODE_DRAIN and a DRAINING notice start a remote drain, an ACTIVE notice sets it as it says; nothing else changes. */
  lemma RemoteDrainEffect(c: Config, s: Client, step: Step, draining: bool)
    requires (draining && (step == NodeDrain || step == NodeState(DrainingStatus))) || step == NodeState(ActiveStatus(draining))
    ensures Next(c, s, step) == s.(link := s.link.(remoteDraining := draining))
  {
  }

  /** A notice with any other status changes nothing, and the node's own drain just its flag. */
  lemma OtherFlagEffects(c: Config, s: Client)
    ensures Next(c, s, NodeState(UnknownStatus)) == s
    ensures Next(c, s, SetDraining) == s.(link := s.link.(localDraining := true))
  {
  }

  /** Either drain stops READY and admission, and without both a ready node does offer its slots. */
  lemma DrainStops(c: Config, s: Client, who: Triple, lease: int, modeAllowed: bool)
    ensures s.link.localDraining || s.link.remoteDraining ==>
              !Enabled(c, s, CheckReady) && CheckAssign(c, s, who, lease, modeAllowed).admission == s.admission
    ensures s.link.session.Ready? && !s.link.localDraining && !s.link.remoteDraining && !s.link.readying ==> Enabled(c, s, CheckReady)
  {
  }

  /** A new session takes its epoch and quota from AUTH_OK; a refresh takes the quota, and only under the same epoch. */
  lemma AuthEffects(c: Config, s: Client, e: int, quota: int)
    ensures Enabled(c, s, Authenticate(e, quota)) ==>
              Next(c, s, Authenticate(e, quota)) == s.(link := s.link.(session := Authenticated, epoch := e, quota := quota))
    ensures Enabled(c, s, Refresh(e, quota)) && e > 0 && (s.link.epoch == 0 || e == s.link.epoch) ==>
              Next(c, s, Refresh(e, quota)) == s.(link := s.link.(quota := quota))
    ensures Enabled(c, s, Refresh(e, quota)) && (e <= 0 || (s.link.epoch != 0 && e != s.link.epoch)) ==>
              Next(c, s, Refresh(e, quota)) == s
  {
  }

  /** An acknowledgement of exactly the delivered record takes that record and its file away, any other nothing. */
  lemma AckEffect(c: Config, s: Client, rec: RQ.Record, ack: Triple, rf: bool, sf: bool)
    requires Enabled(c, s, ReceiveAck(rec, ack, rf, sf))
    ensures var q := Next(c, s, ReceiveAck(rec, ack, rf, sf)).q;
            if ack == Triple(rec.submissionId, rec.judgeTaskId, rec.attemptId) && rec.id in s.q.records && !rf
            then q.records == s.q.records - {rec.id} && q.files == s.q.files - {rec.id} && q.reservations == s.q.reservations
            else q == s.q
  {
  }

  /** A pruning pass takes a record past the TTL away together with its file, and leaves any other. */
  lemma PruneEffect(c: Config, s: Client, id: string, at: int)
    ensures var q := Next(c, s, PruneResult(id, at)).q;
            if id in s.q.records && c.lim.ttl > 0 && at - s.q.records[id].enqueuedAt > c.lim.ttl
            then q.records == s.q.records - {id} && q.files == s.q.files - {id} && q.reservations == s.q.reservations
            else q == s.q
  {
  }

  /** The record of a result names its attempt, and is filed under that attempt's key. */
  lemma ResultRecordNames(who: Triple, event: RQ.Bytes, metaBytes: nat, at: int)
    ensures var rec := ResultRecord(who, event, metaBytes, at);
            && rec.submissionId == who.submission && rec.judgeTaskId == who.task && rec.attemptId == who.attempt
            && rec.id == TaskKey(who) && rec.event == event && RecordKey(rec) == who
  {
  }

  /** The last usable word of RESUME_RESULT on a key. */
  ghost predicate LastWord(tasks: seq<ResumedTask>, k: string, i: nat) {
    && i < |tasks| && AllPresent(tasks[i].who) && TaskKey(tasks[i].who) == k
    && forall j | i < j < |tasks| :: !(AllPresent(tasks[j].who) && TaskKey(tasks[j].who) == k)
  }

  lemma {:induction false} ResumedMapMeans(tasks: seq<ResumedTask>, k: string)
    ensures k in ResumedMap(tasks) <==> exists i: nat :: LastWord(tasks, k, i)
    ensures forall i: nat | LastWord(tasks, k, i) :: k in ResumedMap(tasks) && ResumedMap(tasks)[k] == tasks[i]
  {
    if tasks != [] {
      var n := |tasks| - 1;
      var front := tasks[..n];
      ResumedMapMeans(front, k);
      if AllPresent(tasks[n].who) && TaskKey(tasks[n].who) == k {
        assert LastWord(tasks, k, n);
        assert forall i: nat | LastWord(tasks, k, i) :: i == n;
      } else {
        forall i: nat ensures LastWord(tasks, k, i) <==> LastWord(front, k, i) {
          if LastWord(front, k, i) {
            forall j | i < j < |tasks| ensures !(AllPresent(tasks[j].who) && TaskKey(tasks[j].who) == k) {
              if j < n { assert tasks[j] == front[j]; }
            }
          }
        }
      }
    }
  }

  // ---------- invariants ----------

  ghost function Placed(w: Work): multiset<string> {
    multiset(w.queued) + w.claimed + w.executing
  }

  /** Conservation: every registry entry is queued, claimed or executing, exactly once. */
  ghost predicate Conserved(s: Client) {
    Placed(s.work) == multiset(s.reg.entries.Keys)
  }

  ghost predicate Bounded(c: Config, s: Client) {
    |s.reg.entries| + (if s.admission.Idle? then 0 else 1) <= c.concurrency
  }

  ghost predicate Named(reg: Registry) {
    forall k | k in reg.entries :: TaskKey(reg.entries[k].who) == k && AllPresent(reg.entries[k].who)
  }

  ghost predicate Admitting(s: Client, k: string) {
    !s.admission.Idle? && TaskKey(s.admission.who) == k
  }

  /** An attempt in flight or being admitted is not among the recently completed ones. */
  ghost predicate Remembered(c: Config, s: Client) {
    && (forall k | k in s.reg.entries || Admitting(s, k) :: k !in s.reg.done && k !in s.releasing)
    && (!s.admission.Idle? ==> AllPresent(s.admission.who) && TaskKey(s.admission.who) !in s.reg.entries)
    && (forall k | k in s.releasing ::
          k in s.reg.done && s.reg.done[k] == s.releasing[k] && s.now - s.releasing[k] <= c.doneTTL)
    && (forall k | k in s.completedAt ::
          s.completedAt[k] <= s.now &&
          ((k in s.reg.done && s.reg.done[k] == s.completedAt[k]) || s.now - s.completedAt[k] > c.doneTTL))
  }

  /** Every attempt in flight holds a reservation unless its key has had a durable record. */
  ghost predicate Promised(s: Client) {
    && (forall k | k in s.reg.entries || (s.admission.Secured? && Admitting(s, k)) ::
          k in s.q.reservations || k in s.hadRecord)
    && s.q.records.Keys <= s.hadRecord
  }

  /** What the epoch fence rests on: RESUME_TASKS lists every attempt, and none is admitted meanwhile. */
  ghost predicate Fenced(s: Client) {
    && (s.link.session.Resuming? ==> s.reg.entries.Keys <= s.link.session.listed)
    && (!s.admission.Idle? ==> s.link.session.Ready? || s.link.session.Offline?)
  }

  /** Everything but the queue's own invariant. */
  ghost predicate Ledger(c: Config, s: Client) {
    && c.concurrency > 0 && c.doneTTL > 0
    && Conserved(s) && Bounded(c, s) && Named(s.reg) && Remembered(c, s) && Promised(s) && Fenced(s)
  }

  ghost predicate Inv(c: Config, s: Client) {
    RQ.Inv(c.lim, s.q) && Ledger(c, s)
  }

  ghost predicate Init(c: Config, s: Client) {
    && ConfigOk(c) && RQ.Inv(c.lim, s.q) && !s.q.degraded && s.q.reservations == {} && s.q.records.Keys <= s.hadRecord
    && s == Client(Registry(map[], map[]), NO_WORK, map[], Idle, NO_LINK, s.q, s.now, map[], s.hadRecord)
  }

  lemma InitInv(c: Config, s: Client)
    requires Init(c, s)
    ensures Inv(c, s)
  {
  }

  // ---------- one lemma per kind of change ----------

  /** Leases, epochs and cancellations change, the set of attempts does not. */
  lemma SameAttempts(c: Config, s: Client, reg: Registry)
    requires Ledger(c, s) && reg.entries.Keys == s.reg.entries.Keys && reg.done == s.reg.done
    requires forall k | k in reg.entries :: reg.entries[k].who == s.reg.entries[k].who
    requires Fenced(s.(reg := reg))
    ensures Ledger(c, s.(reg := reg))
  {
    var s' := s.(reg := reg);
    assert |reg.entries| == |s.reg.entries| by {
      assert |reg.entries.Keys| == |reg.entries| && |s.reg.entries.Keys| == |s.reg.entries|;
    }
    assert Remembered(c, s') && Promised(s');
  }

  lemma LinkOnly(c: Config, s: Client, link: Link)
    requires Ledger(c, s) && Fenced(s.(link := link))
    ensures Ledger(c, s.(link := link))
  {
    var s' := s.(link := link);
    assert Remembered(c, s') && Promised(s') && Conserved(s');
  }

  lemma RenewingOnly(c: Config, s: Client, renewing: map<string, Renewing>)
    requires Ledger(c, s)
    ensures Ledger(c, s.(work := s.work.(renewing := renewing)))
  {
    PlacesOnly(c, s, s.work.(renewing := renewing));
  }

  lemma QueueOnly(c: Config, s: Client, q: RQ.State, had: set<string>)
    requires Ledger(c, s) && s.hadRecord <= had && q.records.Keys <= had
    requires forall k | k in s.q.reservations && (k in s.reg.entries || Admitting(s, k)) :: k in q.reservations || k in had
    ensures Ledger(c, s.(q := q, hadRecord := had))
  {
    var s' := s.(q := q, hadRecord := had);
    assert Remembered(c, s') && Conserved(s');
  }

  lemma ReceiveResumeInv(c: Config, s: Client, r: ResumeResult, t: int)
    requires Ledger(c, s) && s.link.session.Resuming?
    ensures Ledger(c, Next(c, s, ReceiveResume(r, t)))
  {
    var reg := ResumeAll(s.reg, s.link.session.listed, r, s.link.epoch, t);
    assert reg.entries.Keys == s.reg.entries.Keys;
    SameAttempts(c, s, reg);
    LinkOnly(c, s.(reg := reg), s.link.(session := Ready));
  }

  lemma PruneDoneInv(c: Config, s: Client)
    requires Ledger(c, s)
    ensures Ledger(c, s.(reg := s.reg.(done := Pruned(s.reg.done, s.now, c.doneTTL))))
  {
    var s1 := s.(reg := s.reg.(done := Pruned(s.reg.done, s.now, c.doneTTL)));
    assert Remembered(c, s1);
    assert Promised(s1) && Conserved(s1);
  }

  lemma AdmissionBegins(c: Config, s: Client, who: Triple, lease: int)
    requires Ledger(c, s) && s.link.session.Ready? && s.admission.Idle? && AllPresent(who)
    requires TaskKey(who) !in s.reg.entries && TaskKey(who) !in s.reg.done && |s.reg.entries| < c.concurrency
    ensures Ledger(c, s.(admission := Checked(who, lease)))
  {
    var s' := s.(admission := Checked(who, lease));
    assert Remembered(c, s');
    assert Promised(s') && Conserved(s');
  }

  lemma CheckAssignInv(c: Config, s: Client, who: Triple, lease: int, ok: bool)
    requires Ledger(c, s) && s.link.session.Ready? && s.admission.Idle?
    ensures Ledger(c, CheckAssign(c, s, who, lease, ok))
  {
    var s1 := s.(reg := s.reg.(done := Pruned(s.reg.done, s.now, c.doneTTL)));
    PruneDoneInv(c, s);
    var s' := CheckAssign(c, s, who, lease, ok);
    if s'.admission.Checked? {
      AdmissionBegins(c, s1, who, lease);
    } else if s'.link.session.Offline? {
      LinkOnly(c, s1, s1.link.(session := Offline));
    }
  }

  lemma AdmissionMoves(c: Config, s: Client, a: Admission)
    requires Ledger(c, s) && !s.admission.Idle?
    requires a.Idle? || (a.who == s.admission.who &&
               (a.Secured? ==> TaskKey(a.who) in s.q.reservations || TaskKey(a.who) in s.hadRecord))
    ensures Ledger(c, s.(admission := a))
  {
    var s' := s.(admission := a);
    assert Remembered(c, s');
    assert Promised(s') && Conserved(s');
  }

  lemma ReserveAssignInv(c: Config, s: Client)
    requires Ledger(c, s) && s.admission.Checked?
    ensures Ledger(c, ReserveAssign(c, s))
  {
    var key := TaskKey(s.admission.who);
    var (q, reply) := RQ.Reserve(c.lim, s.q, key);
    if reply == RQ.Accepted {
      QueueOnly(c, s, q, s.hadRecord);
      var s1 := s.(q := q, hadRecord := s.hadRecord);
      AdmissionMoves(c, s1, Secured(s.admission.who, s.admission.lease));
    } else {
      AdmissionMoves(c, s, Idle);
    }
  }

  /** The failed-start branch of `handleAssign` is dead, and so is its channel-overflow branch. */
  lemma AssignBranchesDead(c: Config, s: Client)
    requires Ledger(c, s) && s.admission.Secured?
    ensures Start(s.reg, Entry(s.admission.who, s.admission.lease, s.link.epoch, false)).Some?
    ensures |s.work.queued| < c.concurrency + 2
  {
    assert |Placed(s.work)| == |s.reg.entries.Keys|;
  }

  lemma PlaceOne(w: Work, keys: set<string>, k: string)
    requires Placed(w) == multiset(keys) && k !in keys
    ensures Placed(w.(queued := w.queued + [k])) == multiset(keys + {k})
  {
    assert multiset(w.queued + [k]) == multiset(w.queued) + multiset{k};
    assert multiset(keys + {k}) == multiset(keys) + multiset{k};
  }

  /** A worker lets go of a task. */
  function Unplace(w: Work, k: string): Work {
    if k in w.executing then w.(executing := w.executing - multiset{k}) else w.(claimed := w.claimed - multiset{k})
  }

  lemma UnplaceOne(w: Work, keys: set<string>, k: string)
    requires Placed(w) == multiset(keys) && (k in w.executing || k in w.claimed)
    ensures k in keys && Placed(Unplace(w, k)) == multiset(keys - {k})
  {
    assert k in Placed(w);
    assert Placed(Unplace(w, k)) == Placed(w) - multiset{k};
    assert multiset(keys) - multiset{k} == multiset(keys - {k});
  }

  lemma StartToChannelInv(c: Config, s: Client)
    requires Ledger(c, s) && s.admission.Secured?
    ensures Ledger(c, StartAssign(c, s, true))
  {
    AssignBranchesDead(c, s);
    var key := TaskKey(s.admission.who);
    var s' := StartAssign(c, s, true);
    assert s'.reg.entries.Keys == s.reg.entries.Keys + {key};
    PlaceOne(s.work, s.reg.entries.Keys, key);
    assert Conserved(s');
    assert Remembered(c, s');
    assert Bounded(c, s') && Promised(s') && Fenced(s');
  }

  /** Completing an attempt that is no longer placed anywhere. */
  lemma FinishInv(c: Config, s: Client, work: Work, key: string)
    requires Ledger(c, s) && key in s.reg.entries
    requires Placed(work) == multiset(s.reg.entries.Keys - {key})
    ensures Ledger(c, Finish(c, s.(work := work), key))
  {
    var s' := Finish(c, s.(work := work), key);
    assert s'.reg.entries.Keys == s.reg.entries.Keys - {key};
    assert |s'.reg.entries| < |s.reg.entries|;
    assert Conserved(s');
    assert Remembered(c, s');
    assert Promised(s') && Fenced(s');
  }

  lemma StartDroppedInv(c: Config, s: Client)
    requires Ledger(c, s) && s.admission.Secured?
    ensures Ledger(c, StartAssign(c, s, false))
  {
    AssignBranchesDead(c, s);
    StartToChannelInv(c, s);
    var key := TaskKey(s.admission.who);
    var s1 := StartAssign(c, s, true);
    var s2 := Closed(s1);
    LinkOnly(c, s1, s2.link);
    assert s1.reg.entries.Keys - {key} == s.reg.entries.Keys;
    FinishInv(c, s2, s.work, key);
  }

  /** Tasks change places, no task comes or goes. */
  lemma PlacesOnly(c: Config, s: Client, work: Work)
    requires Ledger(c, s) && Placed(work) == Placed(s.work)
    ensures Ledger(c, s.(work := work))
  {
    var s' := s.(work := work);
    assert Remembered(c, s') && Promised(s') && Conserved(s');
  }

  lemma ClaimInv(c: Config, s: Client)
    requires Ledger(c, s) && Enabled(c, s, Claim)
    ensures Ledger(c, Next(c, s, Claim))
  {
    var work := Next(c, s, Claim).work;
    ClaimPlaces(s.work, work);
    PlacesOnly(c, s, work);
    assert Next(c, s, Claim) == s.(work := work);
  }

  lemma ClaimPlaces(w: Work, w': Work)
    requires w.queued != []
    requires w' == w.(queued := w.queued[1..], claimed := w.claimed + multiset{w.queued[0]})
    ensures Placed(w') == Placed(w)
  {
    assert w.queued == [w.queued[0]] + w.queued[1..];
  }

  lemma StartHandlerInv(c: Config, s: Client, k: string)
    requires Ledger(c, s) && Enabled(c, s, StartHandler(k))
    ensures Ledger(c, Next(c, s, StartHandler(k)))
  {
    var work := Next(c, s, StartHandler(k)).work;
    assert Placed(work) == Placed(s.work);
    PlacesOnly(c, s, work);
    assert Next(c, s, StartHandler(k)) == s.(work := work);
  }

  lemma CompleteTaskInv(c: Config, s: Client, k: string)
    requires Ledger(c, s) && Enabled(c, s, CompleteTask(k))
    ensures Ledger(c, Next(c, s, CompleteTask(k)))
  {
    UnplaceOne(s.work, s.reg.entries.Keys, k);
    FinishInv(c, s, Unplace(s.work, k), k);
  }

  lemma RunReleaseInv(c: Config, s: Client, k: string)
    requires Ledger(c, s) && k in s.releasing
    ensures Ledger(c, Next(c, s, RunRelease(k)))
  {
    var s1 := s.(q := RQ.Release(s.q, k), hadRecord := s.hadRecord);
    QueueOnly(c, s, RQ.Release(s.q, k), s.hadRecord);
    var s' := Next(c, s, RunRelease(k));
    assert s' == s1.(releasing := s.releasing - {k});
    assert Remembered(c, s') && Promised(s') && Conserved(s');
  }

  lemma ReportInv(c: Config, s: Client, rec: RQ.Record, o: WriteOutcome)
    requires Ledger(c, s)
    ensures Ledger(c, ReportResult(c, s, rec, o))
  {
    var s' := ReportResult(c, s, rec, o);
    QueueOnly(c, s, s'.q, s'.hadRecord);
  }

  lemma DropResultInv(c: Config, s: Client, q: RQ.State)
    requires Ledger(c, s) && q.reservations == s.q.reservations && q.records.Keys <= s.q.records.Keys
    ensures Ledger(c, s.(q := q))
  {
    QueueOnly(c, s, q, s.hadRecord);
    assert s.(q := q, hadRecord := s.hadRecord) == s.(q := q);
  }

  lemma TickInv(c: Config, s: Client, t: int)
    requires Ledger(c, s) && Enabled(c, s, Tick(t))
    ensures Ledger(c, Next(c, s, Tick(t)))
  {
    var s' := Next(c, s, Tick(t));
    assert Remembered(c, s') && Promised(s') && Conserved(s');
  }

  lemma CrashInv(c: Config, s: Client)
    requires Ledger(c, s)
    ensures Ledger(c, Next(c, s, CrashAndReopen))
  {
  }

  lemma CancelInv(c: Config, s: Client, t: Triple)
    requires Ledger(c, s)
    ensures Ledger(c, s.(reg := Cancel(s.reg, TaskKey(t))))
  {
    SameAttempts(c, s, Cancel(s.reg, TaskKey(t)));
  }

  lemma CancelAllInv(c: Config, s: Client)
    requires Ledger(c, s)
    ensures Ledger(c, s.(reg := CancelAll(s.reg)))
  {
    assert CancelAll(s.reg).entries.Keys == s.reg.entries.Keys;
    SameAttempts(c, s, CancelAll(s.reg));
  }

  lemma WriteRenewalInv(c: Config, s: Client, k: string)
    requires Ledger(c, s) && k in s.work.renewing
    ensures Ledger(c, Next(c, s, WriteRenewal(k)))
  {
    var reg := Resume(s.reg, k, s.work.renewing[k].lease, s.work.renewing[k].epoch);
    assert Fenced(s.(reg := reg));
    SameAttempts(c, s, reg);
    RenewingOnly(c, s.(reg := reg), s.work.renewing - {k});
    assert Next(c, s, WriteRenewal(k)) == s.(reg := reg).(work := s.work.(renewing := s.work.renewing - {k}));
  }

  /** Steps that change the session or a flag and nothing else. */
  predicate LinkStep(step: Step) {
    step.Authenticate? || step.Refresh? || step.ListAttempts? || step.Disconnect? || step.NodeDrain? ||
    step.SetDraining? || step.CheckReady? || step.SendReady?
  }

  lemma LinkStepInv(c: Config, s: Client, step: Step)
    requires Ledger(c, s) && Enabled(c, s, step) && LinkStep(step)
    ensures Ledger(c, Next(c, s, step))
  {
    var link := Next(c, s, step).link;
    assert Next(c, s, step) == s.(link := link);
    LinkOnly(c, s, link);
  }

  lemma ReceiveAckInv(c: Config, s: Client, rec: RQ.Record, rf: bool, sf: bool)
    requires Ledger(c, s)
    ensures Ledger(c, s.(q := RQ.Ack(s.q, rec.id, rf, sf).0))
  {
    DropResultInv(c, s, RQ.Ack(s.q, rec.id, rf, sf).0);
  }

  lemma PruneResultInv(c: Config, s: Client, id: string, at: int)
    requires Ledger(c, s)
    ensures Ledger(c, s.(q := RQ.PruneOne(c.lim, s.q, id, at)))
  {
    DropResultInv(c, s, RQ.PruneOne(c.lim, s.q, id, at));
  }

  lemma NodeStateInv(c: Config, s: Client, status: NodeStatus)
    requires Ledger(c, s)
    ensures Ledger(c, ApplyNodeState(s, status))
  {
    if status.Inactive? {
      CancelAllInv(c, s);
    } else {
      LinkOnly(c, s, ApplyNodeState(s, status).link);
    }
  }

  lemma StepLedger(c: Config, s: Client, step: Step)
    requires Ledger(c, s) && Enabled(c, s, step)
    ensures Ledger(c, Next(c, s, step))
  {
    match step
    case ReceiveResume(r, t) => ReceiveResumeInv(c, s, r, t);
    case Assign(who, lease, ok) => CheckAssignInv(c, s, who, lease, ok);
    case AssignReserve => ReserveAssignInv(c, s);
    case AssignStart(toChannel) => if toChannel { StartToChannelInv(c, s); } else { StartDroppedInv(c, s); }
    case CancelTask(t) => CancelInv(c, s, t);
    case NodeState(status) => NodeStateInv(c, s, status);
    case ReadRenewal(_, _) => RenewingOnly(c, s, Next(c, s, step).work.renewing);
    case WriteRenewal(k) => WriteRenewalInv(c, s, k);
    case Claim => ClaimInv(c, s);
    case StartHandler(k) => StartHandlerInv(c, s, k);
    case CompleteTask(k) => CompleteTaskInv(c, s, k);
    case RunRelease(k) => RunReleaseInv(c, s, k);
    case Report(who, event, meta, at, o) => ReportInv(c, s, ResultRecord(who, event, meta, at), o);
    case ReceiveAck(rec, ack, rf, sf) => ReceiveAckInv(c, s, rec, rf, sf);
    case PruneResult(id, at) => PruneResultInv(c, s, id, at);
    case Tick(t) => TickInv(c, s, t);
    case CrashAndReopen => CrashInv(c, s);
    case _ => LinkStepInv(c, s, step);
  }

  /** What a step asks of the queue. */
  function QueueOp(s: Client, step: Step): RQ.Op {
    match step
    case AssignReserve => if s.admission.Checked? then RQ.DoReserve(TaskKey(s.admission.who)) else RQ.DoRead
    case AssignStart(_) =>
      if s.admission.Secured? && TaskKey(s.admission.who) in s.reg.entries then RQ.DoRelease(TaskKey(s.admission.who))
      else RQ.DoRead
    case RunRelease(k) => RQ.DoRelease(k)
    case Report(who, event, meta, at, o) => RQ.DoEnqueue(ResultRecord(who, event, meta, at), s.now, o)
    case ReceiveAck(rec, ack, rf, sf) => if ack == RecordKey(rec) then RQ.DoAck(rec.id, rf, sf) else RQ.DoRead
    case PruneResult(id, at) => RQ.DoPruneOne(id, at)
    case CrashAndReopen => RQ.DoReopen
    case _ => RQ.DoRead
  }

  /** Every step of the node is one operation of the queue, which therefore stays within its limits. */
  lemma StepQueue(c: Config, s: Client, step: Step)
    requires Enabled(c, s, step)
    ensures Next(c, s, step).q == RQ.Apply(c.lim, s.q, QueueOp(s, step))
  {
    if UsesQueue(step) { QueueStep(c, s, step); } else { QueueUntouched(c, s, step); }
  }

  predicate UsesQueue(step: Step) {
    step.AssignReserve? || step.AssignStart? || step.RunRelease? || step.Report? || step.ReceiveAck? ||
    step.PruneResult? || step.CrashAndReopen?
  }

  lemma QueueUntouched(c: Config, s: Client, step: Step)
    requires Enabled(c, s, step) && !UsesQueue(step)
    ensures QueueOp(s, step) == RQ.DoRead && Next(c, s, step).q == s.q
  {
  }

  lemma QueueStep(c: Config, s: Client, step: Step)
    requires Enabled(c, s, step) && UsesQueue(step)
    ensures Next(c, s, step).q == RQ.Apply(c.lim, s.q, QueueOp(s, step))
  {
  }
}
