/** What holds over whole runs of the node: every sequence of messages, results, write failures,
    crashes and reconnects that module Attempts allows. */
module AttemptRuns {
  import opened Basics
  import opened Tasks
  import opened Attempts
  import RQ = ResultQueue

  ghost predicate Linked(c: Config, states: seq<Client>, steps: seq<Step>, i: nat)
    requires i < |steps| && |states| == |steps| + 1
  {
    Enabled(c, states[i], steps[i]) && states[i + 1] == Next(c, states[i], steps[i])
  }

  ghost predicate Chain(c: Config, states: seq<Client>, steps: seq<Step>) {
    |states| == |steps| + 1 && forall i | 0 <= i < |steps| :: Linked(c, states, steps, i)
  }

  ghost predicate Run(c: Config, states: seq<Client>, steps: seq<Step>) {
    Chain(c, states, steps) && Init(c, states[0])
  }

  lemma {:induction false} RunLedger(c: Config, states: seq<Client>, steps: seq<Step>, n: nat)
    requires Run(c, states, steps) && n < |states|
    ensures Ledger(c, states[n])
  {
    if n == 0 {
      InitInv(c, states[n]);
    } else {
      RunLedger(c, states, steps, n - 1);
      assert Linked(c, states, steps, n - 1);
      StepLedger(c, states[n - 1], steps[n - 1]);
    }
  }

  lemma ChainQueueStep(c: Config, states: seq<Client>, steps: seq<Step>, n: nat) returns (op: RQ.Op)
    requires Chain(c, states, steps) && n < |steps|
    ensures states[n + 1].q == RQ.Apply(c.lim, states[n].q, op)
  {
    assert Linked(c, states, steps, n);
    StepQueue(c, states[n], steps[n]);
    op := QueueOp(states[n], steps[n]);
  }

  /** To the queue, a run of the node is a sequence of queue operations. */
  lemma {:induction false} ChainQueue(c: Config, states: seq<Client>, steps: seq<Step>, n: nat) returns (ops: seq<RQ.Op>)
    requires Chain(c, states, steps) && n < |states|
    ensures |ops| == n && states[n].q == RQ.ApplyAll(c.lim, states[0].q, ops)
  {
    if n == 0 { return []; }
    var before := ChainQueue(c, states, steps, n - 1);
    var op := ChainQueueStep(c, states, steps, n - 1);
    ops := before + [op];
    assert ops[..|ops| - 1] == before;
  }

  lemma RunQueue(c: Config, states: seq<Client>, steps: seq<Step>, n: nat)
    requires Run(c, states, steps) && n < |states|
    ensures RQ.Inv(c.lim, states[n].q)
  {
    var ops := ChainQueue(c, states, steps, n);
    RQ.AlwaysWithinLimits(c.lim, states[0].q, ops);
  }

  lemma RunInv(c: Config, states: seq<Client>, steps: seq<Step>, n: nat)
    requires Run(c, states, steps) && n < |states|
    ensures Inv(c, states[n])
  {
    RunLedger(c, states, steps, n);
    RunQueue(c, states, steps, n);
  }

  /** Registry entries are exactly the queued, claimed and executing tasks, each once, never more than
      the local concurrency whatever quota the server approves; so an assignment that has reserved its
      capacity always starts and always finds room in the channel. */
  lemma AttemptsConserved(c: Config, states: seq<Client>, steps: seq<Step>, n: nat)
    requires Run(c, states, steps) && n < |states|
    ensures Placed(states[n].work) == multiset(states[n].reg.entries.Keys)
    ensures |states[n].reg.entries| <= c.concurrency
    ensures states[n].admission.Secured? ==>
              TaskKey(states[n].admission.who) !in states[n].reg.entries && |states[n].work.queued| < c.concurrency + 2
  {
    RunInv(c, states, steps, n);
    if states[n].admission.Secured? { AssignBranchesDead(c, states[n]); }
  }

  // ---------- reservations ----------

  /** An attempt in flight whose key has had no record is never told that the queue is full, however
      many other attempts reserve, report, cancel or complete. */
  lemma AdmittedNeverFull(c: Config, states: seq<Client>, steps: seq<Step>, n: nat, rec: RQ.Record, outcome: WriteOutcome)
    requires Run(c, states, steps) && n < |states|
    requires rec.id in states[n].reg.entries && rec.id !in states[n].hadRecord
    ensures RQ.Enqueue(c.lim, states[n].q, rec, states[n].now, outcome).1 != RQ.ErrFull
    ensures !states[n].q.degraded && RQ.RecordOk(c.lim, rec.id, rec) ==>
              RQ.Enqueue(c.lim, states[n].q, rec, states[n].now, outcome).1 ==
                if outcome.Written? then RQ.Accepted else RQ.StorageFailed
  {
    RunInv(c, states, steps, n);
    RQ.ReservedNeverFull(c.lim, states[n].q, rec, states[n].now, outcome);
  }

  /** A reservation is held by an attempt in flight, by one past its reservation but not yet started,
      or by a completed one whose release is still to run. */
  ghost predicate Owned(s: Client, k: string) {
    k in s.reg.entries || k in s.releasing || (s.admission.Secured? && TaskKey(s.admission.who) == k)
  }

  ghost predicate NoLeak(s: Client) {
    forall k | k in s.q.reservations :: Owned(s, k)
  }

  lemma OwnedAfter(c: Config, s: Client, step: Step, k: string)
    requires Enabled(c, s, step) && Owned(s, k) && step != RunRelease(k)
    requires !step.AssignStart? && !step.CrashAndReopen?
    ensures Owned(Next(c, s, step), k)
  {
  }

  lemma NoLeakStep(c: Config, s: Client, step: Step)
    requires Enabled(c, s, step) && NoLeak(s)
    ensures NoLeak(Next(c, s, step))
  {
    var s' := Next(c, s, step);
    if step.AssignReserve? {
      NoLeakReserve(c, s);
    } else if step.AssignStart? {
      NoLeakStart(c, s, step.toChannel);
    } else if !step.CrashAndReopen? {
      ReservationsShrink(c, s, step);
      forall k | k in s'.q.reservations ensures Owned(s', k) { OwnedAfter(c, s, step, k); }
    }
  }

  lemma ReservationsShrink(c: Config, s: Client, step: Step)
    requires Enabled(c, s, step) && !step.AssignReserve?
    ensures Next(c, s, step).q.reservations <= s.q.reservations
    ensures forall k :: step == RunRelease(k) ==> k !in Next(c, s, step).q.reservations
  {
    StepQueue(c, s, step);
  }

  lemma NoLeakReserve(c: Config, s: Client)
    requires NoLeak(s) && s.admission.Checked?
    ensures NoLeak(ReserveAssign(c, s))
  {
  }

  lemma NoLeakStart(c: Config, s: Client, toChannel: bool)
    requires NoLeak(s) && s.admission.Secured?
    ensures NoLeak(StartAssign(c, s, toChannel))
  {
  }

  lemma {:induction false} ChainNoLeak(c: Config, states: seq<Client>, steps: seq<Step>, n: nat)
    requires Chain(c, states, steps) && n < |states| && NoLeak(states[0])
    ensures NoLeak(states[n])
  {
    if n > 0 {
      ChainNoLeak(c, states, steps, n - 1);
      assert Linked(c, states, steps, n - 1);
      NoLeakStep(c, states[n - 1], steps[n - 1]);
    }
  }

  /** No reservation leaks: once nothing is in flight, being admitted or awaiting its release, every
      reservation has been given back. */
  lemma ReservationsAreOwned(c: Config, states: seq<Client>, steps: seq<Step>, n: nat)
    requires Run(c, states, steps) && n < |states|
    ensures forall k | k in states[n].q.reservations :: Owned(states[n], k)
    ensures |states[n].reg.entries| == 0 && states[n].admission.Idle? && states[n].releasing == map[] ==>
              states[n].q.reservations == {}
  {
    ChainNoLeak(c, states, steps, n);
  }

  lemma HadRecordStep(c: Config, s: Client, step: Step, k: string)
    requires Enabled(c, s, step) && k !in s.hadRecord && k in Next(c, s, step).hadRecord
    ensures (step.Report? && TaskKey(step.who) == k && AcceptedReport(c, s, step)) ||
            (step.CrashAndReopen? && k in s.q.files)
  {
  }

  /** A key has had a record only if a report for it was accepted or the directory held it at a crash. */
  lemma {:induction false} HadRecordMeans(c: Config, states: seq<Client>, steps: seq<Step>, n: nat, k: string)
    requires Run(c, states, steps) && n < |states|
    requires k in states[n].hadRecord && k !in states[0].hadRecord
    ensures exists i :: 0 <= i < n &&
              ((steps[i].Report? && TaskKey(steps[i].who) == k && AcceptedReport(c, states[i], steps[i])) ||
               (steps[i].CrashAndReopen? && k in states[i].q.files))
  {
    if k in states[n - 1].hadRecord {
      HadRecordMeans(c, states, steps, n - 1, k);
    } else {
      assert Linked(c, states, steps, n - 1);
      HadRecordStep(c, states[n - 1], steps[n - 1], k);
    }
  }

  // ---------- accepted results ----------

  ghost predicate AcceptedReport(c: Config, s: Client, step: Step) {
    step.Report? &&
    RQ.Enqueue(c.lim, s.q, ResultRecord(step.who, step.event, step.metaBytes, step.at), s.now, step.outcome).1 == RQ.Accepted
  }

  /** The two ways a result may leave the disk: the server acknowledged exactly the attempt of the
      delivered record, or the record outlived the TTL. */
  ghost predicate Settles(c: Config, s: Client, step: Step, k: string) {
    || (step.ReceiveAck? && step.rec.id == k && step.ack == RecordKey(step.rec) && TaskKey(step.ack) == k)
    || (step.PruneResult? && step.id == k && k in s.q.records &&
        c.lim.ttl > 0 && step.at - s.q.records[k].enqueuedAt > c.lim.ttl)
  }

  lemma FileKept(lim: RQ.Limits, q: RQ.State, op: RQ.Op, k: string)
    requires RQ.Durable(lim, q) && k in q.files
    requires !(op.DoAck? && op.id == k)
    requires !(op.DoPruneOne? && op.id == k && k in q.records && RQ.Outdated(lim, q.records[k], op.now))
    ensures k in RQ.Apply(lim, q, op).files && RQ.Apply(lim, q, op).files[k] == q.files[k]
  {
  }

  lemma ResultKept(c: Config, s: Client, step: Step, k: string)
    requires RQ.Durable(c.lim, s.q) && Enabled(c, s, step) && k in s.q.files && !Settles(c, s, step, k)
    ensures var s' := Next(c, s, step); k in s'.q.files && s'.q.files[k] == s.q.files[k]
  {
    StepQueue(c, s, step);
    FileKept(c.lim, s.q, QueueOp(s, step), k);
  }

  lemma RunResultKept(c: Config, states: seq<Client>, steps: seq<Step>, p: nat, k: string)
    requires Run(c, states, steps) && p < |steps|
    requires k in states[p].q.files && !Settles(c, states[p], steps[p], k)
    ensures k in states[p + 1].q.files && states[p + 1].q.files[k] == states[p].q.files[k]
  {
    RunInv(c, states, steps, p);
    assert Linked(c, states, steps, p);
    ResultKept(c, states[p], steps[p], k);
  }

  lemma AcceptedStored(c: Config, s: Client, step: Step)
    requires RQ.Inv(c.lim, s.q) && AcceptedReport(c, s, step)
    ensures var k := TaskKey(step.who); var q := Next(c, s, step).q;
            k in q.files && q.files[k].event == step.event
  {
    RQ.AcceptedIsOnDisk(c.lim, s.q, ResultRecord(step.who, step.event, step.metaBytes, step.at), s.now, step.outcome);
  }

  lemma RunAcceptedStored(c: Config, states: seq<Client>, steps: seq<Step>, i: nat)
    requires Run(c, states, steps) && i < |steps| && AcceptedReport(c, states[i], steps[i])
    ensures var k := TaskKey(steps[i].who);
            k in states[i + 1].q.files && states[i + 1].q.files[k].event == steps[i].event
  {
    RunQueue(c, states, steps, i);
    assert Linked(c, states, steps, i);
    AcceptedStored(c, states[i], steps[i]);
  }

  /** No accepted result is lost: in every later state, crashes included, the directory holds that exact
      event, or some step in between was a matching acknowledgement or a TTL removal of that key. */
  lemma {:induction false} NoResultLost(c: Config, states: seq<Client>, steps: seq<Step>, i: nat, j: nat)
    requires Run(c, states, steps) && i < j < |states| && AcceptedReport(c, states[i], steps[i])
    ensures var k := TaskKey(steps[i].who);
            (k in states[j].q.files && states[j].q.files[k].event == steps[i].event) ||
            exists m :: i < m < j && Settles(c, states[m], steps[m], k)
  {
    var k := TaskKey(steps[i].who);
    if j == i + 1 {
      RunAcceptedStored(c, states, steps, i);
    } else {
      NoResultLost(c, states, steps, i, j - 1);
      if k in states[j - 1].q.files && states[j - 1].q.files[k].event == steps[i].event &&
         !Settles(c, states[j - 1], steps[j - 1], k) {
        RunResultKept(c, states, steps, j - 1, k);
      }
    }
  }

  /** Reopening the directory with the same limits succeeds in every state, and brings back every record. */
  lemma RunReopenSucceeds(c: Config, states: seq<Client>, steps: seq<Step>, n: nat, entries: seq<RQ.DirEntry>)
    requires Run(c, states, steps) && n < |states|
    requires RQ.Lists(RQ.Filtered(entries), states[n].q.files)
    ensures RQ.LoadAccepts(c.lim, RQ.Filtered(entries))
    ensures |RQ.Loaded(RQ.Filtered(entries))| <= |states[n].q.records| + 1
    ensures forall id | id in states[n].q.records ::
              id in RQ.Loaded(RQ.Filtered(entries)) && RQ.Loaded(RQ.Filtered(entries))[id] == states[n].q.records[id]
  {
    RunQueue(c, states, steps, n);
    RQ.ReopenSucceeds(c.lim, states[n].q, entries);
  }

  /** A file without a record. */
  ghost predicate Stray(q: RQ.State, k: string) { k in q.files && k !in q.records }

  lemma StrayAppears(lim: RQ.Limits, q: RQ.State, op: RQ.Op, k: string)
    requires !Stray(q, k) && Stray(RQ.Apply(lim, q, op), k)
    ensures op.DoEnqueue? && op.rec.id == k && RQ.Enqueue(lim, q, op.rec, op.now, op.outcome).1 == RQ.StorageFailed
    ensures RQ.Apply(lim, q, op).files[k] == RQ.Stamped(op.rec, op.now)
  {
  }

  lemma StrayStays(lim: RQ.Limits, q: RQ.State, op: RQ.Op, k: string)
    requires RQ.Durable(lim, q) && Stray(q, k) && Stray(RQ.Apply(lim, q, op), k)
    ensures RQ.Apply(lim, q, op).files[k] == q.files[k]
  {
  }

  lemma StrayStep(c: Config, s: Client, step: Step, k: string)
    requires Enabled(c, s, step) && Stray(Next(c, s, step).q, k) && RQ.Durable(c.lim, s.q)
    ensures !Stray(s.q, k) ==> FailedReport(c, s, step, k, Next(c, s, step).q.files[k])
    ensures Stray(s.q, k) ==> Next(c, s, step).q.files[k] == s.q.files[k]
  {
    StepQueue(c, s, step);
    if Stray(s.q, k) {
      StrayStays(c.lim, s.q, QueueOp(s, step), k);
    } else {
      StrayAppears(c.lim, s.q, QueueOp(s, step), k);
    }
  }

  /** A report of `rec` under the key `k` failed with a storage error. */
  ghost predicate FailedReport(c: Config, s: Client, step: Step, k: string, rec: RQ.Record) {
    step.Report? && TaskKey(step.who) == k && rec == RQ.Stamped(ResultRecord(step.who, step.event, step.metaBytes, step.at), s.now) &&
    RQ.Enqueue(c.lim, s.q, ResultRecord(step.who, step.event, step.metaBytes, step.at), s.now, step.outcome).1 == RQ.StorageFailed
  }

  lemma RunStrayStep(c: Config, states: seq<Client>, steps: seq<Step>, n: nat, k: string)
    requires Run(c, states, steps) && n < |states| && Stray(states[n].q, k)
    ensures n > 0
    ensures !Stray(states[n - 1].q, k) ==> FailedReport(c, states[n - 1], steps[n - 1], k, states[n].q.files[k])
    ensures Stray(states[n - 1].q, k) ==> states[n].q.files[k] == states[n - 1].q.files[k]
  {
    assert n > 0;
    RunQueue(c, states, steps, n - 1);
    assert Linked(c, states, steps, n - 1);
    StrayStep(c, states[n - 1], steps[n - 1], k);
  }

  /** What reopening adds is a result whose report failed with a storage error, exactly as it was reported. */
  lemma {:induction false} StrayFileMeansFailedReport(c: Config, states: seq<Client>, steps: seq<Step>, n: nat, k: string)
    requires Run(c, states, steps) && n < |states| && Stray(states[n].q, k)
    ensures exists i :: 0 <= i < n && FailedReport(c, states[i], steps[i], k, states[n].q.files[k])
  {
    RunStrayStep(c, states, steps, n, k);
    if Stray(states[n - 1].q, k) {
      StrayFileMeansFailedReport(c, states, steps, n - 1, k);
    }
  }

  /** For ids without NUL, a settling acknowledgement names the very attempt that reported. */
  lemma SettlingAckNamesAttempt(c: Config, s: Client, step: Step, who: Triple)
    requires Settles(c, s, step, TaskKey(who)) && step.ReceiveAck? && NulFree(who) && NulFree(step.ack)
    ensures step.ack == who
  {
    TaskKeyInjective(step.ack, who);
  }

  // ---------- at most once ----------

  /** At most one execution of an attempt at any time, and none beside a queued or claimed copy. */
  lemma NeverTwiceAtOnce(c: Config, s: Client, k: string)
    requires Inv(c, s)
    ensures multiset(s.work.queued)[k] + s.work.claimed[k] + s.work.executing[k] <= 1
  {
    assert Placed(s.work)[k] == multiset(s.reg.entries.Keys)[k];
  }

  lemma ExecutionEndsByCompletion(c: Config, s: Client, step: Step, k: string)
    requires Enabled(c, s, step) && !step.CrashAndReopen? && k in s.work.executing && step != CompleteTask(k)
    ensures k in Next(c, s, step).work.executing
  {
    if !MovesWork(step) { WorkChanges(c, s, step); }
  }

  /** Steps that move tasks or record completions. */
  predicate MovesWork(step: Step) {
    step.AssignStart? || step.Claim? || step.StartHandler? || step.CompleteTask? || step.CrashAndReopen?
  }

  lemma WorkChanges(c: Config, s: Client, step: Step)
    requires Enabled(c, s, step) && !MovesWork(step)
    ensures Next(c, s, step).completedAt == s.completedAt && Next(c, s, step).work.executing == s.work.executing
    ensures !step.ReadRenewal? && !step.WriteRenewal? ==> Next(c, s, step).work == s.work
  {
  }

  lemma CompletionRemembered(c: Config, s: Client, step: Step, k: string)
    requires Enabled(c, s, step) && !step.CrashAndReopen? && k in s.completedAt && s.completedAt[k] <= s.now
    ensures var s' := Next(c, s, step); k in s'.completedAt && s'.completedAt[k] >= s.completedAt[k]
  {
    if !MovesWork(step) { WorkChanges(c, s, step); }
  }

  ghost predicate SameProcess(steps: seq<Step>, i: nat, j: nat) {
    j <= |steps| && forall m | i <= m < j :: !steps[m].CrashAndReopen?
  }

  lemma RunExecution(c: Config, states: seq<Client>, steps: seq<Step>, p: nat, k: string)
    requires Run(c, states, steps) && p < |steps| && !steps[p].CrashAndReopen?
    ensures steps[p] == StartHandler(k) ==> k in states[p + 1].work.executing
    ensures k in states[p].work.executing ==>
              k in states[p + 1].work.executing ||
              (steps[p] == CompleteTask(k) && k in states[p + 1].completedAt && states[p + 1].completedAt[k] == states[p].now)
  {
    assert Linked(c, states, steps, p);
    if k in states[p].work.executing && steps[p] != CompleteTask(k) {
      ExecutionEndsByCompletion(c, states[p], steps[p], k);
    }
  }

  /** After an execution starts, it is still going on or it has completed. */
  lemma {:induction false} ExecutionTracked(c: Config, states: seq<Client>, steps: seq<Step>, i: nat, n: nat, k: string)
    requires Run(c, states, steps) && i < n < |states| && steps[i] == StartHandler(k) && SameProcess(steps, i, n)
    ensures k in states[n].work.executing ||
            exists m :: i < m < n && steps[m] == CompleteTask(k) &&
                        k in states[n].completedAt && states[n].completedAt[k] >= states[m].now
  {
    var p := n - 1;
    RunExecution(c, states, steps, p, k);
    if n > i + 1 {
      ExecutionTracked(c, states, steps, i, p, k);
      if k !in states[p].work.executing {
        var m :| i < m < p && steps[m] == CompleteTask(k) &&
                 k in states[p].completedAt && states[p].completedAt[k] >= states[m].now;
        RunCompletionRemembered(c, states, steps, p, k);
      }
    }
  }

  lemma RunCompletionRemembered(c: Config, states: seq<Client>, steps: seq<Step>, p: nat, k: string)
    requires Run(c, states, steps) && p < |steps| && !steps[p].CrashAndReopen? && k in states[p].completedAt
    ensures k in states[p + 1].completedAt && states[p + 1].completedAt[k] >= states[p].completedAt[k]
  {
    RunInv(c, states, steps, p);
    assert Linked(c, states, steps, p);
    CompletionRemembered(c, states[p], steps[p], k);
  }

  /** At most once: within one process, a second execution of an attempt starts only after the first
      completed, and more than doneTTL later. */
  lemma AtMostOnce(c: Config, states: seq<Client>, steps: seq<Step>, i: nat, j: nat, k: string)
    requires Run(c, states, steps) && i < j < |steps| && SameProcess(steps, i, j)
    requires steps[i] == StartHandler(k) && steps[j] == StartHandler(k)
    ensures exists m :: i < m < j && steps[m] == CompleteTask(k) && states[j].now - states[m].now > c.doneTTL
  {
    ExecutionTracked(c, states, steps, i, j, k);
    RunInv(c, states, steps, j);
    assert Linked(c, states, steps, j);
    NeverTwiceAtOnce(c, states[j], k);
    assert k !in states[j].work.executing;
    var m :| i < m < j && steps[m] == CompleteTask(k) &&
             k in states[j].completedAt && states[j].completedAt[k] >= states[m].now;
    assert k !in states[j].reg.done;
  }

  // ---------- the epoch fence ----------

  /** While a session is ready, every live attempt carries its epoch. */
  ghost predicate Fence(s: Client) {
    s.link.session.Ready? ==> forall k | k in s.reg.entries :: OnEpoch(s, k)
  }

  ghost predicate OnEpoch(s: Client, k: string)
    requires k in s.reg.entries
  {
    s.reg.entries[k].cancelled || s.reg.entries[k].epoch == s.link.epoch
  }

  /** A renewal of a live attempt is written with an epoch that is no longer the session's. */
  ghost predicate StaleWrite(s: Client, step: Step, k: string) {
    && step == WriteRenewal(k) && k in s.work.renewing && s.work.renewing[k].epoch != s.link.epoch
    && k in s.reg.entries && !s.reg.entries[k].cancelled
  }

  /** An attempt that is off the epoch of a ready session was so before, in the same session, or a stale renewal
      has just been written to it. */
  lemma OffEpochStep(c: Config, s: Client, step: Step, k: string)
    requires Ledger(c, s) && Enabled(c, s, step)
    requires var s' := Next(c, s, step); s'.link.session.Ready? && k in s'.reg.entries && !OnEpoch(s', k)
    ensures StaleWrite(s, step, k) ||
            (s.link.session.Ready? && k in s.reg.entries && !OnEpoch(s, k) && !step.Authenticate? && !step.CrashAndReopen?)
  {
    if !TouchesAttempts(step) {
      AttemptsUntouched(c, s, step);
    } else if step.ReceiveResume? {
      OnEpochAfterResume(c, s, step.result, step.serverNow, k);
    } else if step.AssignStart? {
      OnEpochAfterStart(c, s, step.toChannel, k);
    } else {
      OffEpochTouched(c, s, step, k);
    }
  }

  lemma OnEpochAfterResume(c: Config, s: Client, r: ResumeResult, t: int, k: string)
    requires Fenced(s) && s.link.session.Resuming? && k in s.reg.entries
    ensures OnEpoch(Next(c, s, ReceiveResume(r, t)), k)
  {
  }

  lemma OnEpochAfterStart(c: Config, s: Client, toChannel: bool, k: string)
    requires s.admission.Secured? && k in StartAssign(c, s, toChannel).reg.entries
    ensures StartAssign(c, s, toChannel).link.session.Ready? ==> s.link.session.Ready?
    ensures k in s.reg.entries ==> (OnEpoch(StartAssign(c, s, toChannel), k) <==> OnEpoch(s, k))
    ensures k !in s.reg.entries ==> OnEpoch(StartAssign(c, s, toChannel), k)
  {
  }

  lemma OffEpochTouched(c: Config, s: Client, step: Step, k: string)
    requires Enabled(c, s, step) && TouchesAttempts(step) && !step.ReceiveResume? && !step.AssignStart?
    requires var s' := Next(c, s, step); s'.link.session.Ready? && k in s'.reg.entries && !OnEpoch(s', k)
    ensures StaleWrite(s, step, k) || (s.link.session.Ready? && k in s.reg.entries && !OnEpoch(s, k) && !step.CrashAndReopen?)
  {
  }

  /** The fence survives a step if and only if the step is not a stale write in a ready session. */
  lemma FenceKeptIff(c: Config, s: Client, step: Step)
    requires Ledger(c, s) && Enabled(c, s, step) && Fence(s)
    ensures Fence(Next(c, s, step)) <==> !(s.link.session.Ready? && step.WriteRenewal? && StaleWrite(s, step, step.key))
  {
    var s' := Next(c, s, step);
    if s.link.session.Ready? && step.WriteRenewal? && StaleWrite(s, step, step.key) {
      assert !OnEpoch(s', step.key);
    } else if s'.link.session.Ready? {
      forall k | k in s'.reg.entries ensures OnEpoch(s', k) {
        if !OnEpoch(s', k) { OffEpochStep(c, s, step, k); }
      }
    }
  }

  predicate NewSession(step: Step) { step.Authenticate? || step.CrashAndReopen? }

  /** The answer to a renewal of `k` was read in step `r`, before the node reconnected in step `a`, and written
      in step `m`, in the session that is still on after `n` steps. */
  ghost predicate Straddles(steps: seq<Step>, k: string, r: nat, a: nat, m: nat, n: nat) {
    && r < a < m < n <= |steps|
    && steps[r].ReadRenewal? && steps[r].key == k && steps[a].Authenticate? && steps[m] == WriteRenewal(k)
    && forall i | m <= i < n :: !NewSession(steps[i])
  }

  lemma RunRenewalStep(c: Config, states: seq<Client>, steps: seq<Step>, p: nat, k: string)
    requires Run(c, states, steps) && p < |steps| && k in states[p + 1].work.renewing
    ensures !steps[p].CrashAndReopen?
    ensures (steps[p].ReadRenewal? && steps[p].key == k && states[p + 1].work.renewing[k].epoch == states[p].link.epoch) ||
            (k in states[p].work.renewing && states[p].work.renewing[k] == states[p + 1].work.renewing[k])
    ensures states[p + 1].link.epoch == states[p].link.epoch || steps[p].Authenticate?
  {
    assert Linked(c, states, steps, p);
    if !steps[p].ReadRenewal? && !steps[p].WriteRenewal? && !steps[p].CrashAndReopen? {
      RenewalChanges(c, states[p], steps[p]);
    }
    if !NewSession(steps[p]) { EpochChangesOnlyOnConnect(c, states[p], steps[p]); }
  }

  lemma RenewalChanges(c: Config, s: Client, step: Step)
    requires Enabled(c, s, step) && !step.ReadRenewal? && !step.WriteRenewal? && !step.CrashAndReopen?
    ensures Next(c, s, step).work.renewing == s.work.renewing
  {
    if !MovesWork(step) { WorkChanges(c, s, step); } else { RenewalsMove(c, s, step); }
  }

  lemma RenewalsMove(c: Config, s: Client, step: Step)
    requires Enabled(c, s, step) && MovesWork(step) && !step.CrashAndReopen?
    ensures Next(c, s, step).work.renewing == s.work.renewing
  {
  }

  /** A renewal under way was read under the epoch it carries, and if that is no longer the session's, the
      node has reconnected since. */
  lemma {:induction false} RenewalTracked(c: Config, states: seq<Client>, steps: seq<Step>, n: nat, k: string) returns (r: nat)
    requires Run(c, states, steps) && n < |states| && k in states[n].work.renewing
    ensures r < n && steps[r].ReadRenewal? && steps[r].key == k
    ensures states[n].work.renewing[k].epoch == states[n].link.epoch || exists a :: r < a < n && steps[a].Authenticate?
  {
    var p := n - 1;
    RunRenewalStep(c, states, steps, p, k);
    if steps[p].ReadRenewal? && steps[p].key == k && states[n].work.renewing[k].epoch == states[p].link.epoch {
      r := p;
    } else {
      r := RenewalTracked(c, states, steps, p, k);
    }
  }

  /** The epoch fence: in every reachable state with a ready session, each attempt is cancelled, carries the session
      epoch, or has had a renewal whose epoch was read before the node reconnected and written after. */
  lemma EpochFence(c: Config, states: seq<Client>, steps: seq<Step>, n: nat, k: string)
    requires Run(c, states, steps) && n < |states| && states[n].link.session.Ready? && k in states[n].reg.entries
    ensures OnEpoch(states[n], k) || exists r, a, m :: Straddles(steps, k, r, a, m, n)
  {
    if !OnEpoch(states[n], k) {
      var m := OffEpochTracked(c, states, steps, n, k);
      var r := RenewalTracked(c, states, steps, m, k);
      var a :| r < a < m && steps[a].Authenticate?;
      assert Straddles(steps, k, r, a, m, n);
    }
  }

  lemma RunOffEpochStep(c: Config, states: seq<Client>, steps: seq<Step>, n: nat, k: string)
    requires Run(c, states, steps) && n < |states| && states[n].link.session.Ready? && k in states[n].reg.entries
    requires !OnEpoch(states[n], k)
    ensures n > 0
    ensures StaleWrite(states[n - 1], steps[n - 1], k) ||
            (states[n - 1].link.session.Ready? && k in states[n - 1].reg.entries && !OnEpoch(states[n - 1], k))
    ensures !NewSession(steps[n - 1])
  {
    assert n > 0;
    RunLedger(c, states, steps, n - 1);
    assert Linked(c, states, steps, n - 1);
    OffEpochStep(c, states[n - 1], steps[n - 1], k);
  }

  lemma {:induction false} OffEpochTracked(c: Config, states: seq<Client>, steps: seq<Step>, n: nat, k: string) returns (m: nat)
    requires Run(c, states, steps) && n < |states| && states[n].link.session.Ready? && k in states[n].reg.entries
    requires !OnEpoch(states[n], k)
    ensures m < n && StaleWrite(states[m], steps[m], k) && forall i | m <= i < n :: !NewSession(steps[i])
  {
    RunOffEpochStep(c, states, steps, n, k);
    if StaleWrite(states[n - 1], steps[n - 1], k) {
      m := n - 1;
    } else {
      m := OffEpochTracked(c, states, steps, n - 1, k);
    }
  }

  // ---------- the fence can break ----------

  lemma Extend(c: Config, states: seq<Client>, steps: seq<Step>, step: Step) returns (states': seq<Client>, steps': seq<Step>)
    requires Chain(c, states, steps) && Enabled(c, states[|steps|], step)
    ensures steps' == steps + [step] && states' == states + [Next(c, states[|steps|], step)]
    ensures Chain(c, states', steps')
  {
    states', steps' := states + [Next(c, states[|steps|], step)], steps + [step];
    forall i | 0 <= i < |steps'| ensures Linked(c, states', steps', i) {
      if i < |steps| { assert Linked(c, states, steps, i); }
    }
  }

  /** A ready session with one live attempt in its handler and nothing else going on. */
  ghost predicate Executes(s: Client, who: Triple, epoch: int) {
    var k := TaskKey(who);
    && s.link == Link(Ready, epoch, 0, false, false, false) && s.admission.Idle? && s.work.renewing == map[]
    && k in s.work.executing && k in s.reg.entries
    && s.reg.entries[k].who == who && s.reg.entries[k].epoch == epoch && !s.reg.entries[k].cancelled
  }

  lemma Connects(c: Config, s: Client, e: int) returns (states: seq<Client>, steps: seq<Step>)
    requires Init(c, s) && e > 0 && s.q == RQ.EMPTY
    ensures Chain(c, states, steps) && states[0] == s
    ensures states[|steps|] == s.(link := Link(Ready, e, 0, false, false, false))
  {
    states, steps := Extend(c, [s], [], Authenticate(e, 0));
    states, steps := Extend(c, states, steps, ListAttempts);
    var r := ResumeResult([], []);
    states, steps := Extend(c, states, steps, ReceiveResume(r, 0));
    assert states[|steps|].reg.entries == map[];
  }

  lemma Reserves(c: Config, s: Client, e: int, who: Triple, lease: int, states0: seq<Client>, steps0: seq<Step>)
    returns (states: seq<Client>, steps: seq<Step>)
    requires Chain(c, states0, steps0) && states0[|steps0|] == s && ConfigOk(c) && c.lim.maxRecord <= c.lim.maxBytes
    requires s == Client(Registry(map[], map[]), NO_WORK, map[], Idle, Link(Ready, e, 0, false, false, false), RQ.EMPTY, s.now, map[], s.hadRecord)
    requires AllPresent(who) && lease > 0
    ensures Chain(c, states, steps) && states[0] == states0[0]
    ensures states[|steps|] == s.(admission := Secured(who, lease), q := RQ.EMPTY.(reservations := {TaskKey(who)}))
  {
    var k := TaskKey(who);
    assert k[|who.submission|] == '\0';
    states, steps := Extend(c, states0, steps0, Assign(who, lease, true));
    assert states[|steps|] == s.(admission := Checked(who, lease));
    assert RQ.Charge(c.lim, 1) == c.lim.maxRecord + RQ.Charge(c.lim, 0);
    assert RQ.Reserve(c.lim, RQ.EMPTY, k) == (RQ.EMPTY.(reservations := {k}), RQ.Accepted);
    states, steps := Extend(c, states, steps, AssignReserve);
  }

  lemma Starts(c: Config, s: Client, e: int, who: Triple, lease: int, states0: seq<Client>, steps0: seq<Step>)
    returns (states: seq<Client>, steps: seq<Step>)
    requires Chain(c, states0, steps0) && states0[|steps0|] == s && c.concurrency > 0
    requires s.reg == Registry(map[], map[]) && s.work == NO_WORK && s.admission == Secured(who, lease)
    requires s.link == Link(Ready, e, 0, false, false, false)
    ensures Chain(c, states, steps) && states[0] == states0[0] && Executes(states[|steps|], who, e)
  {
    var k := TaskKey(who);
    states, steps := Extend(c, states0, steps0, AssignStart(true));
    assert states[|steps|].work.queued == [k];
    states, steps := Extend(c, states, steps, Claim);
    assert k in states[|steps|].work.claimed;
    states, steps := Extend(c, states, steps, StartHandler(k));
  }

  /** The answer to a renewal is read, the node reconnects and the server resumes the attempt, and then the
      answer is written with the old epoch. */
  lemma StaleRenewal(c: Config, s: Client, who: Triple, e: int, e': int, states0: seq<Client>, steps0: seq<Step>)
    returns (states: seq<Client>, steps: seq<Step>)
    requires Chain(c, states0, steps0) && states0[|steps0|] == s && Executes(s, who, e) && AllPresent(who) && e' > 0 && e' != e
    ensures Chain(c, states, steps) && states[0] == states0[0]
    ensures states[|steps|].link.session.Ready? && TaskKey(who) in states[|steps|].reg.entries
    ensures !OnEpoch(states[|steps|], TaskKey(who))
  {
    var k := TaskKey(who);
    states, steps := Extend(c, states0, steps0, ReadRenewal(k, 9));
    states, steps := Extend(c, states, steps, Disconnect);
    states, steps := Extend(c, states, steps, Authenticate(e', 0));
    states, steps := Extend(c, states, steps, ListAttempts);
    var r := ResumeResult([ResumedTask(who, 20, false)], []);
    assert ResumedMap(r.resumed) == map[k := ResumedTask(who, 20, false)] by { assert r.resumed[..0] == []; }
    states, steps := Extend(c, states, steps, ReceiveResume(r, 10));
    assert !states[|steps|].reg.entries[k].cancelled && states[|steps|].link.epoch == e';
    states, steps := Extend(c, states, steps, WriteRenewal(k));
  }

  /** The exception to the fence is real: some run of every node whose queue can hold one record reaches a ready
      session with a live attempt of an older epoch. */
  lemma FenceCanBreak(c: Config) returns (states: seq<Client>, steps: seq<Step>, k: string)
    requires ConfigOk(c) && c.lim.maxRecord <= c.lim.maxBytes
    ensures Run(c, states, steps) && states[|steps|].link.session.Ready?
    ensures k in states[|steps|].reg.entries && !OnEpoch(states[|steps|], k)
  {
    var who := Triple("s", "t", "a");
    k := TaskKey(who);
    var s := Client(Registry(map[], map[]), NO_WORK, map[], Idle, NO_LINK, RQ.EMPTY, 0, map[], {});
    RQ.EmptyWithinLimits(c.lim);
    states, steps := Connects(c, s, 1);
    states, steps := Reserves(c, states[|steps|], 1, who, 5, states, steps);
    states, steps := Starts(c, states[|steps|], 1, who, 5, states, steps);
    states, steps := StaleRenewal(c, states[|steps|], who, 1, 2, states, steps);
  }

  /** The server's last usable word on `k` lets it go on until `lease`: not completed, a lease in the future, and the key
      nowhere among the rejected. */
  ghost predicate Continues(r: ResumeResult, k: string, i: nat, now: int) {
    && LastWord(r.resumed, k, i) && !r.resumed[i].completed && r.resumed[i].lease > 0 && r.resumed[i].lease > now
    && forall t | t in r.rejected :: TaskKey(t) != k
  }

  /** For every RESUME_RESULT, however contradictory, exactly the attempts that were live and that the server's last word
      lets go on stay live, and they carry the new epoch and that word's lease. */
  lemma ResumeKeepsExactlyApproved(c: Config, s: Client, r: ResumeResult, t: int, k: string)
    requires Ledger(c, s) && s.link.session.Resuming? && k in s.reg.entries
    ensures var s' := Next(c, s, ReceiveResume(r, t));
            && k in s'.reg.entries && s'.link.session.Ready?
            && (!s'.reg.entries[k].cancelled <==> !s.reg.entries[k].cancelled && exists i: nat :: Continues(r, k, i, t))
            && forall i: nat | Continues(r, k, i, t) ::
                 s'.reg.entries[k] == s.reg.entries[k].(lease := r.resumed[i].lease, epoch := s.link.epoch)
  {
    assert k in s.link.session.listed;
    ApprovedMeans(k, s.link.session.listed, r, t);
  }

  lemma ApprovedMeans(k: string, listed: set<string>, r: ResumeResult, t: int)
    requires k in listed
    ensures Approved(k, listed, r, t) <==> exists i: nat :: Continues(r, k, i, t)
    ensures forall i: nat | Continues(r, k, i, t) :: k in ResumedMap(r.resumed) && ResumedMap(r.resumed)[k] == r.resumed[i]
  {
    ResumedMapMeans(r.resumed, k);
    if Approved(k, listed, r, t) {
      var i: nat :| LastWord(r.resumed, k, i);
      assert Continues(r, k, i, t);
    }
  }

  /** Only a new connection or a restart changes the epoch. */
  lemma EpochChangesOnlyOnConnect(c: Config, s: Client, step: Step)
    requires Enabled(c, s, step) && !step.Authenticate? && !step.CrashAndReopen?
    ensures Next(c, s, step).link.epoch == s.link.epoch
  {
  }

  /** Steps that change registry entries or the admission under way. */
  predicate TouchesAttempts(step: Step) {
    step.ReceiveResume? || step.Assign? || step.AssignReserve? || step.AssignStart? || step.CancelTask? ||
    step.NodeState? || step.WriteRenewal? || step.CompleteTask? || step.CrashAndReopen?
  }

  lemma AttemptsUntouched(c: Config, s: Client, step: Step)
    requires Enabled(c, s, step) && !TouchesAttempts(step)
    ensures Next(c, s, step).reg == s.reg && Next(c, s, step).admission == s.admission
    ensures Next(c, s, step).link.localDraining == (s.link.localDraining || step.SetDraining?)
  {
  }

  lemma NothingUncancels(c: Config, s: Client, step: Step, k: string)
    requires Enabled(c, s, step)
    requires k in s.reg.entries && s.reg.entries[k].cancelled && k in Next(c, s, step).reg.entries
    ensures Next(c, s, step).reg.entries[k].cancelled
  {
    if !TouchesAttempts(step) {
      AttemptsUntouched(c, s, step);
    } else {
      CancelledKept(c, s, step, k);
    }
  }

  lemma CancelledKept(c: Config, s: Client, step: Step, k: string)
    requires Enabled(c, s, step) && TouchesAttempts(step)
    requires k in s.reg.entries && s.reg.entries[k].cancelled && k in Next(c, s, step).reg.entries
    ensures Next(c, s, step).reg.entries[k].cancelled
  {
  }

  /** A cancel message hits exactly its target, and an inactive identity every attempt. */
  lemma CancelHitsItsTarget(c: Config, s: Client, t: Triple, k: string)
    requires k in s.reg.entries
    ensures var s' := Next(c, s, CancelTask(t));
            k in s'.reg.entries && s'.reg.entries[k] == if k == TaskKey(t) then s.reg.entries[k].(cancelled := true) else s.reg.entries[k]
    ensures var s' := Next(c, s, NodeState(Inactive));
            k in s'.reg.entries && s'.reg.entries[k].cancelled
  {
  }

  /** A cancelled attempt never gets into the handler. */
  lemma {:induction false} CancelledStaysOut(c: Config, states: seq<Client>, steps: seq<Step>, i: nat, j: nat, k: string)
    requires Chain(c, states, steps) && i <= j < |steps|
    requires k in states[i].reg.entries && states[i].reg.entries[k].cancelled
    requires forall m | i <= m <= j :: k in states[m].reg.entries
    ensures states[j].reg.entries[k].cancelled && steps[j] != StartHandler(k)
  {
    assert Linked(c, states, steps, j);
    if i < j {
      CancelledStaysOut(c, states, steps, i, j - 1, k);
      assert Linked(c, states, steps, j - 1);
      assert k in states[j].reg.entries;
      NothingUncancels(c, states[j - 1], steps[j - 1], k);
    }
  }

  // ---------- the server's quota ----------

  /** While an attempt is being admitted none is added, and it began with a check against the quota then in force. */
  lemma AdmissionStep(c: Config, s: Client, step: Step)
    requires Enabled(c, s, step) && c.concurrency > 0 && !Next(c, s, step).admission.Idle?
    ensures Next(c, s, step).reg.entries.Keys <= s.reg.entries.Keys
    ensures s.admission.Idle? ==>
              && step.Assign? && Next(c, s, step).admission == Checked(step.who, step.lease)
              && |s.reg.entries| < if 0 < s.link.quota <= c.concurrency then s.link.quota else c.concurrency
    ensures !s.admission.Idle? ==> Next(c, s, step).admission.who == s.admission.who
  {
    if step.Assign? {
      if AllPresent(step.who) && step.lease > 0 { CheckAssignDecides(c, s, step.who, step.lease, step.modeAllowed); }
    } else if !TouchesAttempts(step) {
      AttemptsUntouched(c, s, step);
    }
  }

  lemma SmallerIsNoLarger(a: set<string>, b: set<string>)
    requires a <= b
    ensures |a| <= |b|
  {
    assert |b| == |a| + |b - a| by { assert a + (b - a) == b; }
  }

  lemma RunAdmissionStep(c: Config, states: seq<Client>, steps: seq<Step>, p: nat)
    requires Run(c, states, steps) && p < |steps| && !states[p + 1].admission.Idle?
    ensures |states[p + 1].reg.entries| <= |states[p].reg.entries|
    ensures states[p].admission.Idle? ==>
              && steps[p].Assign? && states[p + 1].admission.who == steps[p].who
              && |states[p].reg.entries| < if 0 < states[p].link.quota <= c.concurrency then states[p].link.quota else c.concurrency
    ensures !states[p].admission.Idle? ==> states[p + 1].admission.who == states[p].admission.who
  {
    assert Linked(c, states, steps, p);
    AdmissionStep(c, states[p], steps[p]);
    SmallerIsNoLarger(states[p + 1].reg.entries.Keys, states[p].reg.entries.Keys);
  }

  lemma {:induction false} AdmissionTracked(c: Config, states: seq<Client>, steps: seq<Step>, n: nat) returns (i: nat)
    requires Run(c, states, steps) && n < |states| && !states[n].admission.Idle?
    ensures i < n && steps[i].Assign? && steps[i].who == states[n].admission.who
    ensures |states[n].reg.entries| < if 0 < states[i].link.quota <= c.concurrency then states[i].link.quota else c.concurrency
  {
    RunAdmissionStep(c, states, steps, n - 1);
    if states[n - 1].admission.Idle? {
      i := n - 1;
    } else {
      i := AdmissionTracked(c, states, steps, n - 1);
    }
  }

  /** No start takes the registry above the quota in force when the assignment was checked. */
  lemma StartsWithinQuota(c: Config, states: seq<Client>, steps: seq<Step>, n: nat, k: string)
    requires Run(c, states, steps) && n < |steps|
    requires k !in states[n].reg.entries && k in states[n + 1].reg.entries
    ensures exists i: nat :: i < n && steps[i].Assign? && TaskKey(steps[i].who) == k &&
              |states[n + 1].reg.entries| <= if 0 < states[i].link.quota <= c.concurrency then states[i].link.quota else c.concurrency
  {
    assert Linked(c, states, steps, n);
    OnlyStartAdds(c, states[n], steps[n], k);
    var i := AdmissionTracked(c, states, steps, n);
    assert |states[n + 1].reg.entries| <= |states[n].reg.entries| + 1;
  }

  lemma OnlyStartAdds(c: Config, s: Client, step: Step, k: string)
    requires Enabled(c, s, step) && k !in s.reg.entries && k in Next(c, s, step).reg.entries
    ensures step == AssignStart(true) && s.admission.Secured? && TaskKey(s.admission.who) == k
    ensures Next(c, s, step).reg.entries == s.reg.entries[k := Entry(s.admission.who, s.admission.lease, s.link.epoch, false)]
  {
    if !TouchesAttempts(step) { AttemptsUntouched(c, s, step); }
  }

  // ---------- advertised slots ----------

  /** A READY with free slots is honoured up to the reservation: a fresh assignment passes every check, and
      is then turned away exactly when the byte budget left is smaller than one worst-case record. */
  lemma AdvertisedSlotAdmitted(c: Config, s: Client, who: Triple, lease: int)
    requires Inv(c, s) && s.link.session.Ready? && s.admission.Idle? && !Draining(s) && AvailableSlots(c, s) > 0
    requires AllPresent(who) && lease > 0 && !Has(s.reg, TaskKey(who), s.now, c.doneTTL)
    requires TaskKey(who) !in s.q.records && TaskKey(who) !in s.q.reservations
    ensures var s1 := CheckAssign(c, s, who, lease, true);
            && s1.admission == Checked(who, lease) && s1.q == s.q
            && (ReserveAssign(c, s1).admission.Secured? <==>
                  c.lim.maxBytes - s.q.bytes - RQ.Charge(c.lim, |s.q.reservations|) >= c.lim.maxRecord)
  {
    assert TaskKey(who)[|who.submission|] == '\0';
    RQ.NotFullYetRefused(c.lim, s.q, TaskKey(who));
  }

  // ---------- draining ----------

  ghost function AdmittingKeys(s: Client): set<string> {
    if s.admission.Idle? then {} else {TaskKey(s.admission.who)}
  }

  /** What one step may do to the attempts of a draining node. */
  ghost predicate DrainKept(s: Client, s': Client) {
    && s'.link.localDraining && AdmittingKeys(s') <= AdmittingKeys(s)
    && s'.reg.entries.Keys <= s.reg.entries.Keys + AdmittingKeys(s)
  }

  lemma DrainAssign(c: Config, s: Client, who: Triple, lease: int, ok: bool)
    requires s.link.localDraining
    ensures CheckAssign(c, s, who, lease, ok).admission == s.admission
    ensures DrainKept(s, CheckAssign(c, s, who, lease, ok))
  {
  }

  lemma DrainAdmission(c: Config, s: Client, toChannel: bool)
    requires s.link.localDraining
    ensures s.admission.Checked? ==> DrainKept(s, ReserveAssign(c, s))
    ensures s.admission.Secured? ==> DrainKept(s, StartAssign(c, s, toChannel))
  {
  }

  lemma DrainStep(c: Config, s: Client, step: Step)
    requires Enabled(c, s, step) && s.link.localDraining && !step.CrashAndReopen?
    ensures DrainKept(s, Next(c, s, step))
    ensures step.SendReady? ==> s.link.readying
    ensures Next(c, s, step).link.readying ==> s.link.readying && !step.SendReady?
  {
    if !TouchesAttempts(step) {
      AttemptsUntouched(c, s, step);
    } else if step.Assign? {
      DrainAssign(c, s, step.who, step.lease, step.modeAllowed);
    } else if step.AssignReserve? {
      DrainAdmission(c, s, true);
    } else if step.AssignStart? {
      DrainAdmission(c, s, step.toChannel);
    }
  }

  /** Local drain is irreversible: whatever the server sends and however often the node reconnects, no attempt is
      added beyond the one that had already passed the drain check, and no READY goes out beyond the one that had. */
  lemma {:induction false} LocalDrainIrreversible(c: Config, states: seq<Client>, steps: seq<Step>, i: nat, j: nat)
    requires Chain(c, states, steps) && i <= j < |states| && states[i].link.localDraining && SameProcess(steps, i, j)
    ensures states[j].link.localDraining
    ensures states[j].reg.entries.Keys <= states[i].reg.entries.Keys + AdmittingKeys(states[i])
    ensures AdmittingKeys(states[j]) <= AdmittingKeys(states[i])
    ensures forall m | i <= m < j && steps[m].SendReady? :: states[i].link.readying && forall n | m < n < j :: !steps[n].SendReady?
    ensures states[j].link.readying ==> states[i].link.readying && forall m | i <= m < j :: !steps[m].SendReady?
  {
    if i < j {
      LocalDrainIrreversible(c, states, steps, i, j - 1);
      assert Linked(c, states, steps, j - 1);
      DrainStep(c, states[j - 1], steps[j - 1]);
    }
  }

  /** Both exceptions are real: an admission that has its reservation when the drain begins is still started, and
      a READY past its check is still sent. */
  lemma DrainExceptions(c: Config, s: Client)
    requires Ledger(c, s) && s.link.localDraining
    ensures s.admission.Secured? ==>
              var k := TaskKey(s.admission.who);
              && k !in s.reg.entries && Enabled(c, s, AssignStart(true))
              && k in Next(c, s, AssignStart(true)).reg.entries && !Next(c, s, AssignStart(true)).reg.entries[k].cancelled
    ensures s.link.readying ==> Enabled(c, s, SendReady)
  {
    if s.admission.Secured? { AssignBranchesDead(c, s); }
  }

  /** A drain ordered by the server ends only with an explicit ACTIVE that does not itself say draining. */
  lemma RemoteDrainEndsOnlyByActive(c: Config, s: Client, step: Step)
    requires Enabled(c, s, step) && s.link.remoteDraining && !Next(c, s, step).link.remoteDraining
    ensures step == NodeState(ActiveStatus(false)) || step.CrashAndReopen?
  {
  }

  function LocallyDraining(s: Client): Client {
    s.(link := s.link.(localDraining := true))
  }

  /** Draining stops nothing else: every other step is as possible as before and does the same. */
  lemma DrainTransparent(c: Config, s: Client, step: Step)
    requires Enabled(c, s, step) && !step.Assign? && !step.CheckReady? && !step.CrashAndReopen?
    ensures Enabled(c, LocallyDraining(s), step)
    ensures Next(c, LocallyDraining(s), step) == LocallyDraining(Next(c, s, step))
  {
    if step.AssignReserve? || step.AssignStart? || step.CompleteTask? {
      DrainTransparentLifecycle(c, s, step);
    } else if TouchesAttempts(step) {
      DrainTransparentRegistry(c, s, step);
    } else {
      DrainTransparentRest(c, s, step);
    }
  }

  lemma DrainTransparentLifecycle(c: Config, s: Client, step: Step)
    requires Enabled(c, s, step) && (step.AssignReserve? || step.AssignStart? || step.CompleteTask?)
    ensures Next(c, LocallyDraining(s), step) == LocallyDraining(Next(c, s, step))
  {
  }

  lemma DrainTransparentRegistry(c: Config, s: Client, step: Step)
    requires Enabled(c, s, step)
    requires step.ReceiveResume? || step.CancelTask? || step.NodeState? || step.WriteRenewal?
    ensures Next(c, LocallyDraining(s), step) == LocallyDraining(Next(c, s, step))
  {
  }

  lemma DrainTransparentRest(c: Config, s: Client, step: Step)
    requires Enabled(c, s, step) && !TouchesAttempts(step) && !step.CheckReady?
    ensures Next(c, LocallyDraining(s), step) == LocallyDraining(Next(c, s, step))
  {
  }
}
