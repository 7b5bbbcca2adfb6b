/** The expiring file store: `Timeout` in `filestore/timeout.go`, with the algorithms of Go's
    container/heap that it drives.  `files` is a binary min-heap on the last use, `idToIndex`
    says where each id sits, and together they stand for a plain map from id to time. */
module ExpiryHeap {

  datatype TimeoutFile = TimeoutFile(id: string, time: int)

  function Parent(k: int): int { (k - 1) / 2 }

  // ---------- heap order on sequences ----------

  ghost predicate InOrder(s: seq<TimeoutFile>, k: int)
    requires 1 <= k < |s|
  {
    s[Parent(k)].time <= s[k].time
  }

  ghost predicate Heap(s: seq<TimeoutFile>, n: int) {
    n <= |s| && forall k | 1 <= k < n :: InOrder(s, k)
  }

  /** The children of `i` are not before its parent. */
  ghost predicate Bridged(s: seq<TimeoutFile>, n: int, i: int)
    requires n <= |s|
  {
    forall k | 1 <= k < n && Parent(k) == i && i > 0 :: s[Parent(i)].time <= s[k].time
  }

  /** A heap but for what is stored at `i`. */
  ghost predicate HeapBut(s: seq<TimeoutFile>, n: int, i: int) {
    && n <= |s| && (forall k | 1 <= k < n && k != i && Parent(k) != i :: InOrder(s, k))
    && Bridged(s, n, i)
  }

  /** A heap but for `i` possibly being before its parent. */
  ghost predicate HeapAbove(s: seq<TimeoutFile>, n: int, i: int) {
    && n <= |s| && (forall k | 1 <= k < n && k != i :: InOrder(s, k))
    && Bridged(s, n, i)
  }

  function Swapped(s: seq<TimeoutFile>, i: nat, j: nat): seq<TimeoutFile>
    requires i < |s| && j < |s|
  {
    s[i := s[j]][j := s[i]]
  }

  lemma {:induction false} RootIsEarliest(s: seq<TimeoutFile>, k: nat)
    requires Heap(s, |s|) && k < |s|
    ensures s[0].time <= s[k].time
  {
    if k > 0 {
      assert InOrder(s, k);
      RootIsEarliest(s, Parent(k));
    }
  }

  /** One move up: the smaller element passes its parent. */
  lemma MovedUp(s: seq<TimeoutFile>, n: int, j: nat)
    requires HeapAbove(s, n, j) && 0 < j < n && s[j].time < s[Parent(j)].time
    ensures HeapAbove(Swapped(s, Parent(j), j), n, Parent(j))
  {
    var p := Parent(j);
    var t := Swapped(s, p, j);
    forall k | 1 <= k < n && k != p ensures InOrder(t, k) {
      assert k != j ==> InOrder(s, k);
      assert p > 0 ==> InOrder(s, p);
    }
    forall k | 1 <= k < n && Parent(k) == p && p > 0 ensures t[Parent(p)].time <= t[k].time {
      assert InOrder(s, p);
      assert k != j ==> InOrder(s, k);
    }
  }

  /** The child that moves up in place of `i`. */
  ghost predicate LeastChild(s: seq<TimeoutFile>, n: int, i: int, j: int)
    requires n <= |s| && 0 <= j < n
  {
    j >= 1 && Parent(j) == i && forall k | 1 <= k < n && Parent(k) == i :: s[j].time <= s[k].time
  }

  /** While sinking, everything is in order except below the current place (and above it at the start). */
  ghost predicate Sinking(s: seq<TimeoutFile>, n: int, start: int, i: int) {
    && n <= |s| && (forall k | 1 <= k < n && Parent(k) != i && !(k == i && i == start) :: InOrder(s, k))
    && Bridged(s, n, i)
  }

  lemma MovedDown(s: seq<TimeoutFile>, n: int, start: nat, i: nat, j: nat)
    requires Sinking(s, n, start, i) && start <= i < j < n && LeastChild(s, n, i, j) && s[j].time < s[i].time
    ensures Sinking(Swapped(s, i, j), n, start, j)
  {
    var t := Swapped(s, i, j);
    forall k | 1 <= k < n && Parent(k) != j && !(k == j && j == start) ensures InOrder(t, k) {
      if k != i && Parent(k) != i { assert InOrder(s, k); }
    }
    forall k | 1 <= k < n && Parent(k) == j ensures t[Parent(j)].time <= t[k].time {
      assert InOrder(s, k);
    }
  }

  lemma ChildrenOf(n: int, i: nat, k: int)
    requires 1 <= k < n && Parent(k) == i
    ensures k == 2 * i + 1 || k == 2 * i + 2
  {
  }

  /** Sinking stops where no child is smaller. */
  lemma SunkEnough(s: seq<TimeoutFile>, n: int, start: nat, i: nat)
    requires Sinking(s, n, start, i) && start <= i < n
    requires forall k | 1 <= k < n && Parent(k) == i :: s[i].time <= s[k].time
    ensures i > start ==> Heap(s, n)
    ensures i == start ==> HeapAbove(s, n, start)
  {
    forall k | 1 <= k < n && !(k == i && i == start) ensures InOrder(s, k) {
      if Parent(k) == i { assert s[i].time <= s[k].time; }
    }
  }

  // ---------- index ----------

  /** `idToIndex` is the exact inverse of the positions; ids are unique. */
  ghost predicate Indexed(s: seq<TimeoutFile>, index: map<string, int>) {
    && (forall i | 0 <= i < |s| :: s[i].id in index && index[s[i].id] == i)
    && (forall id | id in index :: 0 <= index[id] < |s| && s[index[id]].id == id)
  }

  ghost function Times(s: seq<TimeoutFile>, index: map<string, int>): map<string, int>
    requires Indexed(s, index)
  {
    map id | id in index :: s[index[id]].time
  }

  /** Pushing keeps the index exact if and only if the id is not tracked yet. */
  lemma PushKeepsIndexIff(s: seq<TimeoutFile>, index: map<string, int>, f: TimeoutFile)
    requires Indexed(s, index)
    ensures Indexed(s + [f], index[f.id := |s|]) <==> f.id !in index
  {
    var t, index' := s + [f], index[f.id := |s|];
    if f.id in index {
      assert t[index[f.id]].id == f.id && index'[f.id] != index[f.id];
    } else {
      assert forall i | 0 <= i < |s| :: t[i] == s[i];
    }
  }

  lemma PushTimes(s: seq<TimeoutFile>, index: map<string, int>, f: TimeoutFile)
    requires Indexed(s, index) && f.id !in index
    ensures Indexed(s + [f], index[f.id := |s|])
    ensures Times(s + [f], index[f.id := |s|]) == Times(s, index)[f.id := f.time]
  {
    PushKeepsIndexIff(s, index, f);
    var t, index' := s + [f], index[f.id := |s|];
    assert forall id | id in index :: t[index'[id]] == s[index[id]];
  }

  lemma PushLeavesHeapAbove(s: seq<TimeoutFile>, f: TimeoutFile)
    requires Heap(s, |s|)
    ensures HeapAbove(s + [f], |s| + 1, |s|)
  {
    var t := s + [f];
    forall k | 1 <= k < |t| && k != |s| ensures InOrder(t, k) { assert InOrder(s, k); }
  }

  /** The id sits at two places. */
  ghost predicate Twice(s: seq<TimeoutFile>, id: string) {
    exists i, j :: 0 <= i < j < |s| && s[i].id == id && s[j].id == id
  }

  lemma TwiceUntracked(s: seq<TimeoutFile>, index: map<string, int>, id: string)
    requires Twice(s, id)
    ensures !Indexed(s, index)
  {
  }

  lemma PushTwice(s: seq<TimeoutFile>, index: map<string, int>, f: TimeoutFile)
    requires Indexed(s, index) && f.id in index
    ensures Twice(s + [f], f.id)
  {
    var t := s + [f];
    assert 0 <= index[f.id] < |s| < |t| && t[index[f.id]].id == f.id && t[|s|].id == f.id;
  }

  lemma SwapKeepsTwice(s: seq<TimeoutFile>, a: nat, b: nat, id: string)
    requires a < |s| && b < |s| && Twice(s, id)
    ensures Twice(Swapped(s, a, b), id)
  {
    var i, j :| 0 <= i < j < |s| && s[i].id == id && s[j].id == id;
    var i' := if i == a then b else if i == b then a else i;
    var j' := if j == a then b else if j == b then a else j;
    var t := Swapped(s, a, b);
    assert t[i'].id == id && t[j'].id == id && i' != j';
    if i' < j' { assert 0 <= i' < j' < |t|; } else { assert 0 <= j' < i' < |t|; }
  }

  class Timeout {
    const timeout: int
    var files: seq<TimeoutFile>
    var idToIndex: map<string, int>
    var store: set<string>

    ghost predicate Tracked()
      reads this
    {
      Indexed(files, idToIndex)
    }

    ghost predicate Valid()
      reads this
    {
      Indexed(files, idToIndex) && Heap(files, |files|)
    }

    ghost function Contents(): map<string, int>
      requires Tracked()
      reads this
    {
      Times(files, idToIndex)
    }

    constructor (limit: int)
      ensures Valid() && Contents() == map[] && store == {} && timeout == limit
    {
      timeout, files, idToIndex, store := limit, [], map[], {};
    }

    method Swap(i: nat, j: nat)
      requires i < |files| && j < |files|
      modifies this`files, this`idToIndex
      ensures files == Swapped(old(files), i, j)
      ensures old(Tracked()) ==> Tracked() && Contents() == old(Contents())
    {
      files := files[i := files[j]][j := files[i]];
      idToIndex := idToIndex[files[i].id := i];
      idToIndex := idToIndex[files[j].id := j];
    }

    /** container/heap `up`. */
    method Up(start: nat, ghost n: nat)
      requires start < n <= |files| && HeapAbove(files, n, start)
      modifies this`files, this`idToIndex
      ensures Heap(files, n) && |files| == old(|files|) && files[n..] == old(files)[n..]
      ensures old(Tracked()) ==> Tracked() && Contents() == old(Contents())
      ensures forall id | Twice(old(files), id) :: Twice(files, id)
    {
      var j: nat := start;
      while true
        invariant j < n <= |files| == old(|files|) && HeapAbove(files, n, j) && files[n..] == old(files)[n..]
        invariant old(Tracked()) ==> Tracked() && Contents() == old(Contents())
        invariant forall id | Twice(old(files), id) :: Twice(files, id)
        decreases j
      {
        var i := if j == 0 then 0 else Parent(j);
        assert 0 <= i <= j;
        if i == j || files[j].time >= files[i].time { break; }
        MovedUp(files, n, j);
        forall id | Twice(files, id) ensures Twice(Swapped(files, i, j), id) { SwapKeepsTwice(files, i, j, id); }
        Swap(i, j);
        j := i;
      }
    }

    /** The earlier child of `i` among the first `n`, or -1. */
    method LeastChildOf(i: nat, n: nat) returns (j: int)
      requires n <= |files|
      ensures j < 0 ==> forall k | 1 <= k < n :: Parent(k) != i
      ensures j >= 0 ==> i < j < n && LeastChild(files, n, i, j)
    {
      var left := 2 * i + 1;
      if left >= n {
        forall k | 1 <= k < n ensures Parent(k) != i {}
        return -1;
      }
      j := left;
      if left + 1 < n && files[left + 1].time < files[left].time { j := left + 1; }
      forall k | 1 <= k < n && Parent(k) == i ensures files[j].time <= files[k].time { ChildrenOf(n, i, k); }
    }

    /** container/heap `down` on the first `n` elements; tells whether anything moved. */
    method Down(start: nat, n: nat) returns (moved: bool)
      requires Tracked() && start < n <= |files| && HeapBut(files, n, start)
      modifies this`files, this`idToIndex
      ensures Tracked() && |files| == old(|files|) && Contents() == old(Contents()) && files[n..] == old(files)[n..]
      ensures moved ==> Heap(files, n)
      ensures !moved ==> HeapAbove(files, n, start)
    {
      var i := start;
      while true
        invariant Tracked() && start <= i < n <= |files| == old(|files|) && Sinking(files, n, start, i)
        invariant Contents() == old(Contents()) && files[n..] == old(files)[n..]
        decreases n - i
      {
        var j := LeastChildOf(i, n);
        if j < 0 || files[j].time >= files[i].time {
          SunkEnough(files, n, start, i);
          return i > start;
        }
        MovedDown(files, n, start, i, j);
        Swap(i, j);
        i := j;
      }
    }

    /** Dropping the last element, as `Pop` does for the heap package. */
    method DropLast() returns (f: TimeoutFile)
      requires Tracked() && files != []
      modifies this`files, this`idToIndex
      ensures Tracked() && files == old(files)[..|old(files)| - 1] && f == old(files)[|old(files)| - 1]
      ensures Contents() == old(Contents()) - {f.id} && f.id in old(Contents())
    {
      f := files[|files| - 1];
      files := files[..|files| - 1];
      idToIndex := idToIndex - {f.id};
    }

    /** heap.Push: always a heap afterwards; the index stays exact, and the contents gain the file, if and only if
        its id was not tracked.  Otherwise the id is in the heap twice. */
    method Push(f: TimeoutFile)
      requires Valid()
      modifies this`files, this`idToIndex
      ensures Heap(files, |files|) && |files| == |old(files)| + 1
      ensures Tracked() <==> f.id !in old(Contents())
      ensures Tracked() ==> Contents() == old(Contents())[f.id := f.time]
      ensures !Tracked() ==> Twice(files, f.id)
    {
      PushLeavesHeapAbove(files, f);
      ghost var untracked := f.id !in idToIndex;
      if untracked { PushTimes(files, idToIndex, f); } else { PushTwice(files, idToIndex, f); }
      files := files + [f];
      idToIndex := idToIndex[f.id := |files| - 1];
      Up(|files| - 1, |files|);
      if !untracked { TwiceUntracked(files, idToIndex, f.id); }
    }

    /** heap.Remove; heap.Pop is the case i == 0. */
    method RemoveAt(i: nat) returns (f: TimeoutFile)
      requires Valid() && i < |files|
      modifies this`files, this`idToIndex
      ensures Valid() && f == old(files)[i] && |files| == |old(files)| - 1
      ensures f.id in old(Contents()) && Contents() == old(Contents()) - {f.id}
    {
      var n := |files| - 1;
      if n != i { MoveToEnd(i); } else { HeapPrefix(files, n); }
      ghost var full := files;
      f := DropLast();
      assert forall k | 1 <= k < n :: InOrder(full, k) ==> InOrder(files, k);
    }

    /** The part of heap.Remove before the last element is dropped. */
    method MoveToEnd(i: nat)
      requires Valid() && i < |files| - 1
      modifies this`files, this`idToIndex
      ensures Tracked() && |files| == |old(files)| && Heap(files, |files| - 1) && Contents() == old(Contents())
      ensures files[|files| - 1] == old(files)[i]
    {
      var n := |files| - 1;
      SwapLeavesHeapBut(files, i);
      Swap(i, n);
      assert files[n..] == [old(files)[i]];
      var moved := Down(i, n);
      if !moved { Up(i, n); }
      assert files[n..] == [old(files)[i]];
      assert files[n] == files[n..][0];
    }

    /** heap.Fix after the element at `i` was given a new time. */
    method Touch(i: nat, time: int)
      requires Valid() && i < |files|
      modifies this`files, this`idToIndex
      ensures Valid() && Contents() == old(Contents())[old(files)[i].id := time]
    {
      ghost var before := files;
      files := files[i := files[i].(time := time)];
      TouchLeavesHeapBut(before, i, time);
      assert Contents() == old(Contents())[old(files)[i].id := time];
      var moved := Down(i, |files|);
      if !moved { Up(i, |files|); }
    }

    // ---------- the store's operations ----------

    /** `Add`, once the underlying store has returned the new file's id: a map update, and everything else here goes
        on working, if and only if that id is not tracked yet. */
    method Add(id: string, now: int)
      requires Valid()
      modifies this
      ensures store == old(store) + {id} && Heap(files, |files|)
      ensures Valid() <==> id !in old(Contents())
      ensures Valid() ==> Contents() == old(Contents())[id := now]
      ensures !Valid() ==> Twice(files, id)
    {
      store := store + {id};
      Push(TimeoutFile(id, now));
    }

    /** `Get` counts as a use of a tracked file. */
    method Get(id: string, now: int)
      requires Valid()
      modifies this`files, this`idToIndex
      ensures Valid() && Contents() == if id in old(Contents()) then old(Contents())[id := now] else old(Contents())
    {
      if id !in idToIndex { return; }
      Touch(idToIndex[id], now);
    }

    method Remove(id: string) returns (success: bool)
      requires Valid()
      modifies this
      ensures Valid() && Contents() == old(Contents()) - {id} && store == old(store) - {id}
      ensures success == (id in old(store))
    {
      success := id in store;
      store := store - {id};
      if id !in idToIndex {
        assert Contents() - {id} == Contents();
        return;
      }
      var _ := RemoveAt(idToIndex[id]);
    }

    /** `checkTimeoutAndRemove`: exactly the files unused for longer than the timeout go, here and in the
        underlying store. */
    method CheckTimeoutAndRemove(now: int)
      requires Valid()
      modifies this
      ensures Valid()
      ensures Contents() == map id | id in old(Contents()) && old(Contents())[id] + timeout >= now :: old(Contents())[id]
      ensures store == old(store) - set id | id in old(Contents()) && old(Contents())[id] + timeout < now
    {
      ghost var start := Contents();
      ghost var gone: set<string> := {};
      while |files| > 0 && files[0].time + timeout < now
        invariant Valid() && Contents() == start - gone && store == old(store) - gone
        invariant forall id | id in gone :: id in start && start[id] + timeout < now
        decreases |files|
      {
        store := store - {files[0].id};
        var f := RemoveAt(0);
        gone := gone + {f.id};
      }
      forall id | id in Contents() ensures Contents()[id] + timeout >= now {
        RootIsEarliest(files, idToIndex[id]);
      }
      forall id | id in start && id !in gone ensures start[id] + timeout >= now {
        assert id in Contents() && Contents()[id] == start[id];
      }
      assert gone == set id | id in start && start[id] + timeout < now;
    }
  }

  lemma SwapLeavesHeapBut(s: seq<TimeoutFile>, i: nat)
    requires Heap(s, |s|) && i < |s| - 1
    ensures HeapBut(Swapped(s, i, |s| - 1), |s| - 1, i)
  {
    var n := |s| - 1;
    var t := Swapped(s, i, n);
    forall k | 1 <= k < n && k != i && Parent(k) != i ensures InOrder(t, k) { assert InOrder(s, k); }
    forall k | 1 <= k < n && Parent(k) == i && i > 0 ensures t[Parent(i)].time <= t[k].time {
      assert InOrder(s, k) && InOrder(s, i);
    }
  }

  lemma TouchLeavesHeapBut(s: seq<TimeoutFile>, i: nat, time: int)
    requires Heap(s, |s|) && i < |s|
    ensures HeapBut(s[i := s[i].(time := time)], |s|, i)
  {
    var t := s[i := s[i].(time := time)];
    forall k | 1 <= k < |s| && k != i && Parent(k) != i ensures InOrder(t, k) { assert InOrder(s, k); }
    forall k | 1 <= k < |s| && Parent(k) == i && i > 0 ensures t[Parent(i)].time <= t[k].time {
      assert InOrder(s, k) && InOrder(s, i);
    }
  }

  lemma HeapPrefix(s: seq<TimeoutFile>, i: nat)
    requires Heap(s, |s|) && i < |s|
    ensures Heap(s[..i], i)
  {
    forall k | 1 <= k < i ensures InOrder(s[..i], k) { assert InOrder(s, k); }
  }
}
