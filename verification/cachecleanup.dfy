/** Eviction of cached problem data: `cleanupCache` in `internal/hnieoj/testdata/cleanup.go`.
    One pass removes entries idle for too long; a second removes least recently used
    entries until the rest fits.  A failing removal ends the cleanup at once. */
module CacheCleanup {

  datatype Entry = Entry(path: string, lastUsed: int, size: nat)

  /** The sum of a weight over a sequence: bytes, or occurrences of one entry. */
  function Weigh(s: seq<Entry>, w: Entry -> nat): nat {
    if s == [] then 0 else Weigh(s[..|s| - 1], w) + w(s[|s| - 1])
  }

  const SIZE: Entry -> nat := (e: Entry) => e.size

  function Is(x: Entry): Entry -> nat { (e: Entry) => if e == x then 1 else 0 }

  function Total(s: seq<Entry>): nat { Weigh(s, SIZE) }

  lemma WeighSnoc(s: seq<Entry>, e: Entry, w: Entry -> nat)
    ensures Weigh(s + [e], w) == Weigh(s, w) + w(e)
  {
    assert (s + [e])[..|s|] == s;
  }

  /** The total is the sum of the sizes. */
  lemma TotalIsSum(s: seq<Entry>, e: Entry)
    ensures Total([]) == 0 && Total(s + [e]) == Total(s) + e.size
  {
    WeighSnoc(s, e, SIZE);
  }

  lemma {:induction false} WeighConcat(s: seq<Entry>, t: seq<Entry>, w: Entry -> nat)
    ensures Weigh(s + t, w) == Weigh(s, w) + Weigh(t, w)
  {
    if t == [] {
      assert s + t == s;
    } else {
      var n := |t| - 1;
      assert (s + t)[..|s + t| - 1] == s + t[..n];
      WeighConcat(s, t[..n], w);
    }
  }

  /** Occurrences, as Dafny's multisets count them. */
  lemma {:induction false} WeighIsMultiplicity(s: seq<Entry>, x: Entry)
    ensures Weigh(s, Is(x)) == multiset(s)[x]
  {
    if s != [] {
      var n := |s| - 1;
      WeighIsMultiplicity(s[..n], x);
      assert s == s[..n] + [s[n]];
    }
  }

  // ---------- sorting by last use ----------

  ghost predicate Sorted(s: seq<Entry>) {
    forall i, j | 0 <= i < j < |s| :: s[i].lastUsed <= s[j].lastUsed
  }

  function Insert(s: seq<Entry>, e: Entry): seq<Entry> {
    if s == [] || s[|s| - 1].lastUsed <= e.lastUsed then s + [e]
    else Insert(s[..|s| - 1], e) + [s[|s| - 1]]
  }

  lemma {:induction false} InsertKeeps(s: seq<Entry>, e: Entry, w: Entry -> nat)
    ensures Weigh(Insert(s, e), w) == Weigh(s, w) + w(e)
  {
    if s == [] || s[|s| - 1].lastUsed <= e.lastUsed {
      WeighSnoc(s, e, w);
    } else {
      var n := |s| - 1;
      InsertKeeps(s[..n], e, w);
      WeighSnoc(Insert(s[..n], e), s[n], w);
    }
  }

  ghost predicate NoneAfter(s: seq<Entry>, t: int) {
    forall i | 0 <= i < |s| :: s[i].lastUsed <= t
  }

  lemma {:induction false} InsertSorted(s: seq<Entry>, e: Entry)
    requires Sorted(s)
    ensures Sorted(Insert(s, e))
    ensures forall t | NoneAfter(s, t) && e.lastUsed <= t :: NoneAfter(Insert(s, e), t)
  {
    if s != [] && s[|s| - 1].lastUsed > e.lastUsed {
      var n := |s| - 1;
      InsertSorted(s[..n], e);
      assert NoneAfter(s[..n], s[n].lastUsed);
      assert NoneAfter(Insert(s[..n], e), s[n].lastUsed);
      forall t | NoneAfter(s, t) && e.lastUsed <= t ensures NoneAfter(Insert(s, e), t) {
        assert NoneAfter(s[..n], t);
        assert s[n].lastUsed <= t;
      }
    }
  }

  function Sort(s: seq<Entry>): seq<Entry> {
    if s == [] then [] else Insert(Sort(s[..|s| - 1]), s[|s| - 1])
  }

  lemma {:induction false} SortSorted(s: seq<Entry>)
    ensures Sorted(Sort(s))
  {
    if s != [] {
      SortSorted(s[..|s| - 1]);
      InsertSorted(Sort(s[..|s| - 1]), s[|s| - 1]);
    }
  }

  lemma {:induction false} SortKeeps(s: seq<Entry>, w: Entry -> nat)
    ensures Weigh(Sort(s), w) == Weigh(s, w)
  {
    if s != [] {
      var n := |s| - 1;
      SortKeeps(s[..n], w);
      InsertKeeps(Sort(s[..n]), s[n], w);
    }
  }

  // ---------- the two passes ----------

  predicate Idle(e: Entry, maxUnused: int, now: int) {
    maxUnused > 0 && now - e.lastUsed > maxUnused
  }

  ghost predicate AllIdle(s: seq<Entry>, maxUnused: int, now: int) {
    forall i | 0 <= i < |s| :: Idle(s[i], maxUnused, now)
  }

  ghost predicate NoneIdle(s: seq<Entry>, maxUnused: int, now: int) {
    forall i | 0 <= i < |s| :: !Idle(s[i], maxUnused, now)
  }

  /** `a` and `b` share out `whole`: every weight adds up. */
  ghost predicate Shared(a: seq<Entry>, b: seq<Entry>, whole: seq<Entry>) {
    forall w: Entry -> nat :: Weigh(a, w) + Weigh(b, w) == Weigh(whole, w)
  }

  lemma ShareMore(a: seq<Entry>, b: seq<Entry>, whole: seq<Entry>, more: seq<Entry>)
    requires Shared(a, b, whole)
    ensures Shared(a + more, b, whole + more) && Shared(a, b + more, whole + more)
  {
    forall w: Entry -> nat
      ensures Weigh(a + more, w) + Weigh(b, w) == Weigh(whole + more, w)
      ensures Weigh(a, w) + Weigh(b + more, w) == Weigh(whole + more, w)
    {
      WeighConcat(a, more, w);
      WeighConcat(b, more, w);
      WeighConcat(whole, more, w);
    }
  }

  lemma ShareNext(a: seq<Entry>, b: seq<Entry>, whole: seq<Entry>, i: nat)
    requires i < |whole| && Shared(a, b, whole[..i])
    ensures Shared(a + [whole[i]], b, whole[..i + 1]) && Shared(a, b + [whole[i]], whole[..i + 1])
  {
    ShareMore(a, b, whole[..i], [whole[i]]);
    assert whole[..i + 1] == whole[..i] + [whole[i]];
  }

  lemma ShareRest(a: seq<Entry>, b: seq<Entry>, whole: seq<Entry>, i: nat)
    requires i <= |whole| && Shared(a, b, whole[..i])
    ensures Shared(a, b + whole[i..], whole)
  {
    ShareMore(a, b, whole[..i], whole[i..]);
    assert whole == whole[..i] + whole[i..];
  }

  method RemoveIdle(entries: seq<Entry>, maxUnused: int, now: int, failing: set<string>)
    returns (victims: seq<Entry>, kept: seq<Entry>, ok: bool)
    ensures Shared(victims, kept, entries)
    ensures AllIdle(victims, maxUnused, now) && (ok ==> NoneIdle(kept, maxUnused, now))
    ensures forall e | e in victims :: maxUnused > 0 && now - e.lastUsed > maxUnused && e.path !in failing
    ensures ok ==> forall e | e in kept :: maxUnused <= 0 || now - e.lastUsed <= maxUnused
    ensures !ok ==> exists e :: e in kept && e.path in failing
  {
    victims, kept := [], [];
    for i := 0 to |entries|
      invariant Shared(victims, kept, entries[..i])
      invariant AllIdle(victims, maxUnused, now) && NoneIdle(kept, maxUnused, now)
      invariant forall e | e in victims :: maxUnused > 0 && now - e.lastUsed > maxUnused && e.path !in failing
      invariant forall e | e in kept :: maxUnused <= 0 || now - e.lastUsed <= maxUnused
    {
      var e := entries[i];
      if Idle(e, maxUnused, now) {
        if e.path in failing {
          // this entry and the rest stay
          ShareRest(victims, kept, entries, i);
          assert entries[i..][0] == e;
          return victims, kept + entries[i..], false;
        }
        ShareNext(victims, kept, entries, i);
        victims := victims + [e];
        continue;
      }
      ShareNext(victims, kept, entries, i);
      kept := kept + [e];
    }
    assert entries[..|entries|] == entries;
    ok := true;
  }

  method Sum(kept: seq<Entry>) returns (total: nat)
    ensures total == Total(kept)
  {
    total := 0;
    for i := 0 to |kept|
      invariant total == Total(kept[..i])
    {
      assert kept[..i + 1] == kept[..i] + [kept[i]];
      WeighSnoc(kept[..i], kept[i], SIZE);
      total := total + kept[i].size;
    }
    assert kept[..|kept|] == kept;
  }

  /** Entries from the front of `sorted` until the rest fits. */
  method RemoveFront(sorted: seq<Entry>, maxBytes: int, failing: set<string>) returns (n: nat, ok: bool)
    requires Total(sorted) > maxBytes > 0
    ensures n <= |sorted|
    ensures ok ==> Total(sorted[n..]) <= maxBytes
    ensures n > 0 ==> Total(sorted[n..]) + sorted[n - 1].size > maxBytes
    ensures forall i | 0 <= i < n :: sorted[i].path !in failing
    ensures !ok ==> n < |sorted| && sorted[n].path in failing
  {
    var total := Total(sorted);
    n := 0;
    assert sorted[0..] == sorted && sorted[..0] == [];
    while n < |sorted| && total > maxBytes
      invariant n <= |sorted| && total == Total(sorted[n..])
      invariant n > 0 ==> total + sorted[n - 1].size > maxBytes
      invariant forall i | 0 <= i < n :: sorted[i].path !in failing
    {
      if sorted[n].path in failing { return n, false; }
      OneMore(sorted, n);
      total := total - sorted[n].size;
      n := n + 1;
    }
    ok := true;
  }

  lemma OneMore(s: seq<Entry>, i: nat)
    requires i < |s|
    ensures Total(s[i..]) == s[i].size + Total(s[i + 1..])
  {
    assert s[i..] == [s[i]] + s[i + 1..];
    WeighConcat([s[i]], s[i + 1..], SIZE);
    assert [s[i]][..0] == [];
  }

  lemma Cut(s: seq<Entry>, i: nat)
    requires i <= |s|
    ensures Shared(s[..i], s[i..], s)
  {
    assert s == s[..i] + s[i..];
    forall w: Entry -> nat ensures Weigh(s[..i], w) + Weigh(s[i..], w) == Weigh(s, w) {
      WeighConcat(s[..i], s[i..], w);
    }
  }

  /** The second pass: oldest first, and no more than needed. */
  method RemoveOldest(kept: seq<Entry>, maxBytes: int, failing: set<string>)
    returns (victims: seq<Entry>, left: seq<Entry>, ok: bool)
    requires maxBytes > 0
    ensures Shared(victims, left, kept)
    ensures forall v, e | v in victims && e in left :: v.lastUsed <= e.lastUsed
    ensures ok ==> Total(left) <= maxBytes
    ensures victims != [] ==> Total(left) + victims[|victims| - 1].size > maxBytes
    ensures forall e | e in victims :: e.path !in failing
    ensures !ok ==> exists e :: e in left && e.path in failing
  {
    var total := Sum(kept);
    if total <= maxBytes { return [], kept, true; }
    var sorted := Sort(kept);
    SortKeeps(kept, SIZE);
    var n;
    n, ok := RemoveFront(sorted, maxBytes, failing);
    victims, left := sorted[..n], sorted[n..];
    OldestFirst(kept, n);
  }

  lemma OldestFirst(kept: seq<Entry>, n: nat)
    requires n <= |Sort(kept)|
    ensures Shared(Sort(kept)[..n], Sort(kept)[n..], kept)
    ensures forall v, e | v in Sort(kept)[..n] && e in Sort(kept)[n..] :: v.lastUsed <= e.lastUsed
  {
    var sorted := Sort(kept);
    SortSorted(kept);
    SortedCut(sorted, n);
    Cut(sorted, n);
    forall w: Entry -> nat ensures Weigh(sorted[..n], w) + Weigh(sorted[n..], w) == Weigh(kept, w) { SortKeeps(kept, w); }
  }

  lemma SortedCut(s: seq<Entry>, n: nat)
    requires Sorted(s) && n <= |s|
    ensures forall v, e | v in s[..n] && e in s[n..] :: v.lastUsed <= e.lastUsed
  {
    forall v, e | v in s[..n] && e in s[n..] ensures v.lastUsed <= e.lastUsed {
      var i :| 0 <= i < n && s[i] == v;
      var j :| 0 <= j < |s[n..]| && s[n..][j] == e;
      assert s[n + j] == e;
    }
  }

  /** `cleanupCache`.  With or without an error the counts say what is gone.  Without one nothing kept is idle too
      long, the rest fits, every entry evicted for space was used no later than any survivor, and
      sparing the last of them would have exceeded the limit. */
  method Cleanup(entries: seq<Entry>, maxBytes: int, maxUnused: int, now: int, failing: set<string>)
    returns (removed: nat, freed: nat, ok: bool, idle: seq<Entry>, evicted: seq<Entry>, left: seq<Entry>)
    ensures multiset(idle) + multiset(evicted) + multiset(left) == multiset(entries)
    ensures removed == |idle| + |evicted| && freed == Total(idle) + Total(evicted)
    ensures freed + Total(left) == Total(entries)
    ensures forall e | e in idle :: maxUnused > 0 && now - e.lastUsed > maxUnused
    ensures ok ==> forall e | e in left :: maxUnused <= 0 || now - e.lastUsed <= maxUnused
    ensures ok && maxBytes > 0 ==> Total(left) <= maxBytes
    ensures maxBytes <= 0 ==> evicted == []
    ensures forall v, e | v in evicted && e in left :: v.lastUsed <= e.lastUsed
    ensures evicted != [] ==> Total(left) + evicted[|evicted| - 1].size > maxBytes
    ensures forall e | e in idle || e in evicted :: e.path !in failing
    ensures !ok ==> exists e :: e in left && e.path in failing
  {
    evicted := [];
    idle, left, ok := RemoveIdle(entries, maxUnused, now, failing);
    removed, freed := |idle|, Total(idle);
    assert Weigh(entries, SIZE) == Weigh(idle, SIZE) + Weigh(left, SIZE);
    SharedIsMultiset(idle, left, entries);
    if !ok || maxBytes <= 0 { return; }
    ghost var kept := left;
    evicted, left, ok := RemoveOldest(left, maxBytes, failing);
    removed, freed := removed + |evicted|, freed + Total(evicted);
    assert Weigh(kept, SIZE) == Weigh(evicted, SIZE) + Weigh(left, SIZE);
    SharedTwice(idle, kept, evicted, left, entries);
    SharedMembers(evicted, left, kept);
  }

  lemma SharedIsMultiset(a: seq<Entry>, b: seq<Entry>, whole: seq<Entry>)
    requires Shared(a, b, whole)
    ensures multiset(a) + multiset(b) == multiset(whole)
  {
    forall x: Entry ensures multiset(a)[x] + multiset(b)[x] == multiset(whole)[x] {
      WeighIsMultiplicity(a, x);
      WeighIsMultiplicity(b, x);
      WeighIsMultiplicity(whole, x);
      assert Weigh(a, Is(x)) + Weigh(b, Is(x)) == Weigh(whole, Is(x));
    }
  }

  lemma SharedMembers(a: seq<Entry>, b: seq<Entry>, whole: seq<Entry>)
    requires Shared(a, b, whole)
    ensures forall e | e in b :: e in whole
  {
    SharedIsMultiset(a, b, whole);
    forall e | e in b ensures e in whole {
      assert e in multiset(b);
      assert e in multiset(whole);
    }
  }

  lemma SharedTwice(a: seq<Entry>, rest: seq<Entry>, b: seq<Entry>, c: seq<Entry>, whole: seq<Entry>)
    requires Shared(a, rest, whole) && Shared(b, c, rest)
    ensures multiset(a) + multiset(b) + multiset(c) == multiset(whole)
  {
    SharedIsMultiset(a, rest, whole);
    SharedIsMultiset(b, c, rest);
  }
}
