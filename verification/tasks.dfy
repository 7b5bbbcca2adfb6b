/** The registry of in-flight attempts: `internal/hnieoj/tasks/registry.go`.
    A completed attempt is remembered for a while so that a repeated assignment is
    acknowledged but not executed again. */
module Tasks {
  import opened Basics

  datatype Triple = Triple(submission: string, task: string, attempt: string)

  /** `Key` and `taskKey`: the parts joined by NUL. */
  function TaskKey(t: Triple): string {
    t.submission + "\0" + t.task + "\0" + t.attempt
  }

  predicate AllPresent(t: Triple) {
    t.submission != "" && t.task != "" && t.attempt != ""
  }

  /** `cancelled` is the state of the attempt's context. */
  datatype Entry = Entry(who: Triple, lease: int, epoch: int, cancelled: bool)

  datatype Registry = Registry(entries: map<string, Entry>, done: map<string, int>)

  function Pruned(done: map<string, int>, now: int, ttl: int): map<string, int> {
    map k | k in done && now - done[k] <= ttl :: done[k]
  }

  predicate Has(r: Registry, key: string, now: int, ttl: int) {
    key in r.entries || key in Pruned(r.done, now, ttl)
  }

  function Start(r: Registry, e: Entry): Option<Registry> {
    if TaskKey(e.who) in r.entries then None else Some(r.(entries := r.entries[TaskKey(e.who) := e]))
  }

  function UpdateLease(r: Registry, key: string, lease: int): Registry {
    if key in r.entries then r.(entries := r.entries[key := r.entries[key].(lease := lease)]) else r
  }

  function Resume(r: Registry, key: string, lease: int, epoch: int): Registry {
    if key in r.entries then r.(entries := r.entries[key := r.entries[key].(lease := lease, epoch := epoch)]) else r
  }

  function Cancel(r: Registry, key: string): Registry {
    if key in r.entries then r.(entries := r.entries[key := r.entries[key].(cancelled := true)]) else r
  }

  function CancelAll(r: Registry): Registry {
    r.(entries := map k | k in r.entries :: r.entries[k].(cancelled := true))
  }

  function Complete(r: Registry, key: string, now: int, ttl: int): Registry {
    Registry(r.entries - {key}, Pruned(r.done[key := now], now, ttl))
  }

  /** The key of a record or attempt is recovered up to equal keys by splitting at the first two NULs,
      which is all `resume` needs to cancel an omitted attempt. */
  function SplitKey(key: string): Option<Triple> {
    var i := FirstIndex(key, (c: char) => c == '\0');
    if i < 0 then None
    else
      var rest := key[i + 1..];
      var j := FirstIndex(rest, (c: char) => c == '\0');
      if j < 0 then None else Some(Triple(key[..i], rest[..j], rest[j + 1..]))
  }

  lemma SplitAt(s: string, i: nat)
    requires i < |s| && s[i] == '\0'
    ensures s == s[..i] + "\0" + s[i + 1..]
  {
  }

  /** Any key with two NULs splits into a triple with that same key. */
  lemma SplitJoins(key: string, x: nat, y: nat)
    requires x < y < |key| && key[x] == '\0' && key[y] == '\0'
    ensures SplitKey(key).Some? && TaskKey(SplitKey(key).value) == key
  {
    var i := FirstIndex(key, (c: char) => c == '\0');
    var rest := key[i + 1..];
    assert rest[y - i - 1] == '\0';
    var j := FirstIndex(rest, (c: char) => c == '\0');
    SplitAt(key, i);
    SplitAt(rest, j);
    assert key[..i] + "\0" + rest[..j] + "\0" + rest[j + 1..] == key[..i] + "\0" + (rest[..j] + "\0" + rest[j + 1..]);
  }

  lemma SplitKeyNamesSameAttempt(t: Triple)
    ensures SplitKey(TaskKey(t)).Some? && TaskKey(SplitKey(TaskKey(t)).value) == TaskKey(t)
  {
    SplitJoins(TaskKey(t), |t.submission|, |t.submission| + 1 + |t.task|);
  }

  predicate NulFree(t: Triple) { '\0' !in t.submission && '\0' !in t.task }

  /** For ids without NUL the key determines the attempt. */
  lemma TaskKeyInjective(t: Triple, u: Triple)
    requires NulFree(t) && NulFree(u) && TaskKey(t) == TaskKey(u)
    ensures t == u
  {
    SplitInverts(t);
    SplitInverts(u);
  }

  lemma SplitInverts(t: Triple)
    requires NulFree(t)
    ensures SplitKey(TaskKey(t)) == Some(t)
  {
    var key := TaskKey(t);
    var n := |t.submission|;
    assert key[n] == '\0' && forall i | 0 <= i < n :: key[i] == t.submission[i];
    assert FirstIndex(key, (c: char) => c == '\0') == n;
    var rest := key[n + 1..];
    assert rest == t.task + "\0" + t.attempt;
    assert rest[|t.task|] == '\0' && forall i | 0 <= i < |t.task| :: rest[i] == t.task[i];
    assert FirstIndex(rest, (c: char) => c == '\0') == |t.task|;
    assert key[..n] == t.submission && rest[..|t.task|] == t.task && rest[|t.task| + 1..] == t.attempt;
  }

  /** The entry at `key`, if there is one, changes as told, and no other entry does. */
  ghost predicate Only(before: map<string, Entry>, after: map<string, Entry>, key: string, change: Entry -> Entry) {
    && after.Keys == before.Keys
    && forall k | k in before :: after[k] == if k == key then change(before[k]) else before[k]
  }

  class RegistryObject {
    var entries: map<string, Entry>
    var done: map<string, int>
    const doneTTL: int

    ghost function Value(): Registry
      reads this
    {
      Registry(entries, done)
    }

    constructor (ttl: int)
      ensures Value() == Registry(map[], map[]) && doneTTL == ttl
    {
      entries, done, doneTTL := map[], map[], ttl;
    }

    /** `pruneDoneLocked`, visiting the remembered attempts in any order. */
    method PruneDone(now: int)
      modifies this`done
      ensures done == Pruned(old(done), now, doneTTL)
      ensures forall k :: k in done <==> k in old(done) && now - old(done)[k] <= doneTTL
      ensures forall k | k in done :: done[k] == old(done)[k]
    {
      var todo := done.Keys;
      while todo != {}
        invariant todo <= done.Keys
        invariant forall k :: k in done <==> k in old(done) && (k in todo || now - old(done)[k] <= doneTTL)
        invariant forall k | k in done :: done[k] == old(done)[k]
        decreases todo
      {
        var k :| k in todo;
        todo := todo - {k};
        if now - done[k] > doneTTL { done := done - {k}; }
      }
    }

    method HasAttempt(who: Triple, now: int) returns (r: bool)
      modifies this`done
      ensures r == Has(old(Value()), TaskKey(who), now, doneTTL)
      ensures r <==> TaskKey(who) in entries || (TaskKey(who) in old(done) && now - old(done)[TaskKey(who)] <= doneTTL)
      ensures done == Pruned(old(done), now, doneTTL)
    {
      PruneDone(now);
      r := TaskKey(who) in entries || TaskKey(who) in done;
    }

    method StartAttempt(e: Entry) returns (ok: bool)
      modifies this`entries
      ensures ok == Start(old(Value()), e).Some?
      ensures Value() == if ok then Start(old(Value()), e).value else old(Value())
      ensures ok <==> TaskKey(e.who) !in old(entries)
      ensures entries == if ok then old(entries)[TaskKey(e.who) := e] else old(entries)
    {
      var key := TaskKey(e.who);
      if key in entries { return false; }
      entries := entries[key := e];
      ok := true;
    }

    method UpdateLeaseOf(who: Triple, lease: int) returns (found: bool)
      modifies this`entries
      ensures found == (TaskKey(who) in old(entries))
      ensures Value() == UpdateLease(old(Value()), TaskKey(who), lease)
      ensures Only(old(entries), entries, TaskKey(who), (e: Entry) => e.(lease := lease))
    {
      var key := TaskKey(who);
      if key !in entries { return false; }
      entries := entries[key := entries[key].(lease := lease)];
      found := true;
    }

    method ResumeAttempt(who: Triple, lease: int, epoch: int) returns (found: bool)
      modifies this`entries
      ensures found == (TaskKey(who) in old(entries))
      ensures Value() == Resume(old(Value()), TaskKey(who), lease, epoch)
      ensures Only(old(entries), entries, TaskKey(who), (e: Entry) => e.(lease := lease, epoch := epoch))
    {
      var key := TaskKey(who);
      if key !in entries { return false; }
      entries := entries[key := entries[key].(lease := lease, epoch := epoch)];
      found := true;
    }

    method CancelAttempt(who: Triple) returns (found: bool)
      modifies this`entries
      ensures found == (TaskKey(who) in old(entries))
      ensures Value() == Cancel(old(Value()), TaskKey(who))
      ensures Only(old(entries), entries, TaskKey(who), (e: Entry) => e.(cancelled := true))
    {
      var key := TaskKey(who);
      if key !in entries { return false; }
      entries := entries[key := entries[key].(cancelled := true)];
      found := true;
    }

    method CancelEverything()
      modifies this`entries
      ensures Value() == CancelAll(old(Value()))
      ensures entries.Keys == old(entries).Keys && forall k | k in entries :: entries[k] == old(entries)[k].(cancelled := true)
    {
      var todo := entries.Keys;
      while todo != {}
        invariant todo <= entries.Keys == old(entries).Keys
        invariant forall k | k in entries ::
                    entries[k] == if k in todo then old(entries)[k] else old(entries)[k].(cancelled := true)
        decreases todo
      {
        var k :| k in todo;
        todo := todo - {k};
        entries := entries[k := entries[k].(cancelled := true)];
      }
    }

    /** `Complete` without its observer call, which runs outside the lock. */
    method CompleteAttempt(who: Triple, now: int)
      modifies this
      ensures Value() == Complete(old(Value()), TaskKey(who), now, doneTTL)
      ensures entries == old(entries) - {TaskKey(who)}
      ensures doneTTL >= 0 ==> TaskKey(who) in done && done[TaskKey(who)] == now
      ensures forall k | k != TaskKey(who) :: k in done <==> k in old(done) && now - old(done)[k] <= doneTTL
    {
      var key := TaskKey(who);
      entries := entries - {key};
      done := done[key := now];
      PruneDone(now);
    }
  }
}
