/** The message handlers as the program runs them, on the registry and queue objects:
    `handleAssign` in `internal/hnieoj/wss/client.go` and `resume` in
    `internal/hnieoj/wss/run.go`. */
module ClientObject {
  import opened Basics
  import opened Tasks
  import opened Attempts
  import RQ = ResultQueue
  import opened QueueObject

  // ---------- resume ----------

  lemma {:induction false} ResumedMapKeys(tasks: seq<ResumedTask>)
    ensures forall k | k in ResumedMap(tasks) :: TaskKey(ResumedMap(tasks)[k].who) == k
  {
    if tasks != [] { ResumedMapKeys(tasks[..|tasks| - 1]); }
  }

  /** The first loop of `resume`: items by key, incomplete ones skipped. */
  method CollectResumed(tasks: seq<ResumedTask>) returns (m: map<string, ResumedTask>)
    ensures m == ResumedMap(tasks)
    ensures forall k | k in m :: TaskKey(m[k].who) == k
  {
    m := map[];
    for i := 0 to |tasks|
      invariant m == ResumedMap(tasks[..i])
    {
      assert tasks[..i + 1][..i] == tasks[..i];
      if !AllPresent(tasks[i].who) { continue; }
      m := m[TaskKey(tasks[i].who) := tasks[i]];
    }
    assert tasks[..|tasks|] == tasks;
    ResumedMapKeys(tasks);
  }

  /** The entries of `old`, cancelled where the key is in `keys`. */
  ghost predicate CancelledIn(entries: map<string, Entry>, before: map<string, Entry>, keys: set<string>) {
    && entries.Keys == before.Keys
    && forall k | k in before :: entries[k] == if k in keys then before[k].(cancelled := true) else before[k]
  }

  /** The second loop: every rejected item is remembered and cancelled. */
  method CancelRejected(registry: RegistryObject, rejected: seq<Triple>) returns (keys: set<string>)
    modifies registry`entries
    ensures keys == RejectedKeys(rejected)
    ensures CancelledIn(registry.entries, old(registry.entries), keys)
  {
    keys := {};
    for i := 0 to |rejected|
      invariant keys == RejectedKeys(rejected[..i])
      invariant CancelledIn(registry.entries, old(registry.entries), keys)
    {
      assert RejectedKeys(rejected[..i + 1]) == RejectedKeys(rejected[..i]) + {TaskKey(rejected[i])};
      keys := keys + {TaskKey(rejected[i])};
      var _ := registry.CancelAttempt(rejected[i]);
    }
    assert rejected[..|rejected|] == rejected;
  }

  /** What the server said about one listed key that it resumed. */
  predicate Granted(task: ResumedTask, k: string, rejected: set<string>, now: int) {
    k !in rejected && !task.completed && task.lease > 0 && task.lease > now
  }

  function Decided(k: string, e: Entry, task: ResumedTask, rejected: set<string>, epoch: int, now: int): Entry {
    if Granted(task, k, rejected, now) then e.(lease := task.lease, epoch := epoch) else e.(cancelled := true)
  }

  ghost predicate DecidedIn(entries: map<string, Entry>, before: map<string, Entry>, keys: set<string>,
                            m: map<string, ResumedTask>, rejected: set<string>, epoch: int, now: int)
    requires keys <= m.Keys
  {
    && entries.Keys == before.Keys
    && forall k | k in before ::
         entries[k] == if k in keys then Decided(k, before[k], m[k], rejected, epoch, now) else before[k]
  }

  /** The third loop: listed and resumed attempts are renewed or cancelled, in any order. */
  method DecideResumed(registry: RegistryObject, listed: set<string>, m: map<string, ResumedTask>,
                       rejected: set<string>, epoch: int, now: int)
    requires forall k | k in m :: TaskKey(m[k].who) == k
    modifies registry`entries
    ensures DecidedIn(registry.entries, old(registry.entries), listed * m.Keys, m, rejected, epoch, now)
  {
    var todo := m.Keys;
    ghost var seen: set<string> := {};
    while todo != {}
      invariant seen + todo == m.Keys && seen !! todo
      invariant DecidedIn(registry.entries, old(registry.entries), listed * seen, m, rejected, epoch, now)
      decreases todo
    {
      var key :| key in todo;
      todo, seen := todo - {key}, seen + {key};
      var task := m[key];
      if key !in listed { continue; }
      if key in rejected {
        var _ := registry.CancelAttempt(task.who);
        continue;
      }
      if task.completed {
        var _ := registry.CancelAttempt(task.who);
        continue;
      }
      if task.lease <= 0 || task.lease <= now {
        var _ := registry.CancelAttempt(task.who);
        continue;
      }
      var _ := registry.ResumeAttempt(task.who, task.lease, epoch);
    }
    assert seen == m.Keys;
  }

  /** The fourth loop: listed attempts the server left out are cancelled by their split key. */
  method CancelOmitted(registry: RegistryObject, listed: set<string>, resumed: set<string>, rejected: set<string>)
    requires forall k | k in listed :: SplitKey(k).Some? && TaskKey(SplitKey(k).value) == k
    modifies registry`entries
    ensures CancelledIn(registry.entries, old(registry.entries), listed - resumed - rejected)
  {
    var todo := listed;
    ghost var seen: set<string> := {};
    while todo != {}
      invariant seen + todo == listed && seen !! todo
      invariant CancelledIn(registry.entries, old(registry.entries), seen - resumed - rejected)
      decreases todo
    {
      var key :| key in todo;
      todo, seen := todo - {key}, seen + {key};
      if key in resumed { continue; }
      if key in rejected { continue; }
      var parts := SplitKey(key);
      var _ := registry.CancelAttempt(parts.value);
    }
    assert seen == listed;
  }

  /** The keys `resume` lists: in-flight attempts and undelivered results, incomplete ones skipped. */
  method ListKeys(attempts: seq<Triple>) returns (listed: set<string>)
    ensures listed == set t | t in attempts && AllPresent(t) :: TaskKey(t)
    ensures forall k | k in listed :: SplitKey(k).Some? && TaskKey(SplitKey(k).value) == k
  {
    listed := {};
    for i := 0 to |attempts|
      invariant listed == set t | t in attempts[..i] && AllPresent(t) :: TaskKey(t)
      invariant forall k | k in listed :: SplitKey(k).Some? && TaskKey(SplitKey(k).value) == k
    {
      assert attempts[..i + 1] == attempts[..i] + [attempts[i]];
      if !AllPresent(attempts[i]) { continue; }
      SplitKeyNamesSameAttempt(attempts[i]);
      listed := listed + {TaskKey(attempts[i])};
    }
    assert attempts[..|attempts|] == attempts;
  }

  /** All of `resume` after the reply, against its one-line meaning: each attempt is renewed exactly if the
      server approves it, and otherwise cancelled if it was listed or rejected. */
  method ResumeTasks(registry: RegistryObject, listed: set<string>, r: ResumeResult, epoch: int, now: int)
    requires forall k | k in listed :: SplitKey(k).Some? && TaskKey(SplitKey(k).value) == k
    modifies registry`entries
    ensures registry.Value() == ResumeAll(old(registry.Value()), listed, r, epoch, now)
  {
    var m := CollectResumed(r.resumed);
    var rejected := CancelRejected(registry, r.rejected);
    ghost var afterRejected := registry.entries;
    DecideResumed(registry, listed, m, rejected, epoch, now);
    ghost var afterResumed := registry.entries;
    CancelOmitted(registry, listed, m.Keys, rejected);
    ResumeLoopsMeet(old(registry.entries), afterRejected, afterResumed, registry.entries, listed, r, epoch, now);
  }

  lemma ResumeLoopsMeet(e0: map<string, Entry>, e1: map<string, Entry>, e2: map<string, Entry>, e3: map<string, Entry>,
                        listed: set<string>, r: ResumeResult, epoch: int, now: int)
    requires CancelledIn(e1, e0, RejectedKeys(r.rejected))
    requires DecidedIn(e2, e1, listed * ResumedMap(r.resumed).Keys, ResumedMap(r.resumed), RejectedKeys(r.rejected), epoch, now)
    requires CancelledIn(e3, e2, listed - ResumedMap(r.resumed).Keys - RejectedKeys(r.rejected))
    ensures e3.Keys == e0.Keys
    ensures e3 == map k | k in e0 :: AfterResume(k, e0[k], listed, r, epoch, now)
  {
    forall k | k in e0 ensures e3[k] == AfterResume(k, e0[k], listed, r, epoch, now) {
    }
  }

  // ---------- handleAssign ----------

  datatype Reply = Silent | Acked | Rejected | Closed

  /** The three admission steps of module Attempts, back to back. */
  function AssignRun(c: Config, s: Client, who: Triple, lease: int, modeAllowed: bool, toChannel: bool): Client {
    var s1 := CheckAssign(c, s, who, lease, modeAllowed);
    if !s1.admission.Checked? then s1 else AdmitRun(c, s1, toChannel)
  }

  function AdmitRun(c: Config, s: Client, toChannel: bool): Client
    requires s.admission.Checked?
  {
    var s2 := ReserveAssign(c, s);
    if !s2.admission.Secured? then s2 else StartAssign(c, s2, toChannel)
  }

  /** How many attempts the server's quota and the local setting allow. */
  ghost function Cap(quota: int, concurrency: int): (cap: int)
    ensures 0 < quota <= concurrency ==> cap == quota
    ensures !(0 < quota <= concurrency) && concurrency > 0 ==> cap == concurrency
  {
    if 0 < quota <= concurrency then quota else if concurrency > 0 then concurrency else 1
  }

  /** In flight, or completed within the TTL. */
  ghost predicate Known(entries: map<string, Entry>, done: map<string, int>, k: string, now: int, ttl: int) {
    k in entries || (k in done && now - done[k] <= ttl)
  }

  /** The two outcomes of a start, field by field. */
  lemma StartedWhere(c: Config, s: Client)
    requires s.admission.Secured? && TaskKey(s.admission.who) !in s.reg.entries
    ensures var k := TaskKey(s.admission.who);
            var reg := s.reg.(entries := s.reg.entries[k := Entry(s.admission.who, s.admission.lease, s.link.epoch, false)]);
            && Start(s.reg, Entry(s.admission.who, s.admission.lease, s.link.epoch, false)) == Some(reg)
            && StartAssign(c, s, false).reg == Complete(reg, k, s.now, c.doneTTL)
            && StartAssign(c, s, true).reg == reg
    ensures var s' := StartAssign(c, s, true);
            s'.q == s.q && s'.link == s.link && s'.work.queued == s.work.queued + [TaskKey(s.admission.who)]
    ensures var s' := StartAssign(c, s, false);
            && s'.q == s.q && s'.work == s.work && s'.link == s.link.(session := Offline)
            && TaskKey(s.admission.who) !in s'.reg.entries
  {
  }

  /** The client's own fields; `view` is the whole node as module Attempts sees it. */
  class NodeClient {
    const config: Config
    const registry: RegistryObject
    const queue: Queue
    var assignCh: seq<string>
    var localDraining: bool
    var remoteDraining: bool
    var epoch: int
    var quota: int
    var connected: bool
    ghost var view: Client

    ghost predicate Valid()
      reads this, registry, queue
    {
      && config.lim == queue.lim && config.doneTTL == registry.doneTTL
      && view.reg == registry.Value() && view.q == queue.Value() && view.work.queued == assignCh
      && view.link.localDraining == localDraining && view.link.remoteDraining == remoteDraining
      && view.link.epoch == epoch && view.link.quota == quota && (connected <==> view.link.session.Ready?)
    }

    constructor (c: Config, r: RegistryObject, q: Queue, s: Client)
      requires c.lim == q.lim && c.doneTTL == r.doneTTL
      requires s.reg == r.Value() && s.q == q.Value()
      ensures Valid() && view == s && config == c && registry == r && queue == q
    {
      config, registry, queue, view := c, r, q, s;
      assignCh, localDraining, remoteDraining, epoch, quota, connected :=
        s.work.queued, s.link.localDraining, s.link.remoteDraining, s.link.epoch, s.link.quota, s.link.session.Ready?;
    }

    /** `handleAssign`, with nothing else running in between: it does exactly the admission steps.  It acknowledges
        exactly when the attempt was known already or has just been handed to the workers, rejects exactly when
        the result queue refuses to reserve, and otherwise closes the session or, draining or on a message it
        cannot use, says nothing. */
    method HandleAssign(who: Triple, lease: int, modeAllowed: bool, now: int, sessionClosed: bool) returns (reply: Reply)
      requires Valid() && now == view.now && view.admission.Idle?
      modifies this, registry, queue
      ensures Valid()
      ensures view == if old(connected)
                      then AssignRun(config, old(view), who, lease, modeAllowed,
                                     !sessionClosed && |old(assignCh)| < config.concurrency + 2)
                      else old(view)
      ensures reply == Acked <==>
                AllPresent(who) && lease > 0 && old(connected) &&
                (Has(old(view).reg, TaskKey(who), old(view).now, config.doneTTL) || TaskKey(who) in view.reg.entries)
      ensures reply == Silent <==>
                || !AllPresent(who) || lease <= 0 || !old(connected)
                || (Draining(old(view)) && !Has(old(view).reg, TaskKey(who), old(view).now, config.doneTTL))
      ensures reply == Rejected <==>
                && old(connected) && CheckAssign(config, old(view), who, lease, modeAllowed).admission.Checked?
                && RQ.Reserve(config.lim, old(view).q, TaskKey(who)).1 != RQ.Accepted
      ensures reply == Closed <==> old(connected) && !connected
      // in numbers: an attempt is started only below the server's quota, and a fresh allowed one is turned away with the
      // session exactly when the quota is used up
      ensures forall k | k in registry.entries && k !in old(registry.entries) ::
                && k == TaskKey(who) && registry.entries[k] == Entry(who, lease, old(epoch), false)
                && |old(registry.entries)| < Cap(old(quota), config.concurrency)
      ensures AllPresent(who) && lease > 0 && old(connected) && !old(localDraining) && !old(remoteDraining) &&
              !Known(old(registry.entries), old(registry.done), TaskKey(who), now, config.doneTTL) && modeAllowed &&
              !sessionClosed && |old(assignCh)| < config.concurrency + 2 ==>
                (reply == Closed <==> |old(registry.entries)| >= Cap(old(quota), config.concurrency))
    {
      if !AllPresent(who) || lease <= 0 { return Silent; }
      if !connected { return Silent; }
      view := CheckAssign(config, view, who, lease, modeAllowed);
      var known := registry.HasAttempt(who, now);
      if known { return Acked; }
      if localDraining || remoteDraining { return Silent; }
      var slots := Slots(old(view));
      if !modeAllowed || |registry.entries| >= slots {
        connected := false;
        return Closed;
      }
      reply := Admit(who, lease, now, sessionClosed);
    }

    /** The second half of `handleAssign`, past its checks. */
    method Admit(who: Triple, lease: int, now: int, sessionClosed: bool) returns (reply: Reply)
      requires Valid() && now == view.now && connected && view.admission == Checked(who, lease)
      requires TaskKey(who) !in view.reg.entries
      modifies this, registry, queue
      ensures Valid()
      ensures view == AdmitRun(config, old(view), !sessionClosed && |old(assignCh)| < config.concurrency + 2)
      ensures reply == Acked <==> TaskKey(who) in view.reg.entries
      ensures reply == Rejected <==> RQ.Reserve(config.lim, old(view).q, TaskKey(who)).1 != RQ.Accepted
      ensures reply == Closed <==> !connected
      ensures reply != Silent
      ensures !sessionClosed && |old(assignCh)| < config.concurrency + 2 ==> reply != Closed
      ensures forall k | k in registry.entries && k !in old(registry.entries) ::
                k == TaskKey(who) && registry.entries[k] == Entry(who, lease, epoch, false)
      ensures epoch == old(epoch)
    {
      var key := TaskKey(who);
      var reserved := queue.Reserve(key);
      view := ReserveAssign(config, view);
      if reserved != RQ.Accepted { return Rejected; }
      reply := StartAdmitted(who, lease, now, sessionClosed);
    }

    method StartAdmitted(who: Triple, lease: int, now: int, sessionClosed: bool) returns (reply: Reply)
      requires Valid() && now == view.now && connected && view.admission == Secured(who, lease)
      requires TaskKey(who) !in view.reg.entries
      modifies this, registry
      ensures Valid()
      ensures view == StartAssign(config, old(view), !sessionClosed && |old(assignCh)| < config.concurrency + 2)
      ensures reply == if TaskKey(who) in view.reg.entries then Acked else Closed
      ensures reply == Closed <==> !connected
      ensures !sessionClosed && |old(assignCh)| < config.concurrency + 2 ==> reply == Acked
      ensures forall k | k in registry.entries && k !in old(registry.entries) ::
                k == TaskKey(who) && registry.entries[k] == Entry(who, lease, epoch, false)
      ensures epoch == old(epoch)
    {
      StartedWhere(config, view);
      var started := registry.StartAttempt(Entry(who, lease, epoch, false));
      if !started { assert false; }  // the program's fallback here cannot be reached: the key was not in flight
      if sessionClosed || |assignCh| >= config.concurrency + 2 {
        registry.CompleteAttempt(who, now);
        connected := false;
        view := StartAssign(config, view, false);
        return Closed;
      }
      assignCh := assignCh + [TaskKey(who)];
      view := StartAssign(config, view, true);
      return Acked;
    }

    /** `approvedSlots`. */
    method Slots(ghost s: Client) returns (n: int)
      requires s.link.quota == quota
      ensures n == ApprovedSlots(config, s)
    {
      n := quota;
      if n <= 0 || n > config.concurrency { n := config.concurrency; }
      if n <= 0 { n := 1; }
    }
  }
}
